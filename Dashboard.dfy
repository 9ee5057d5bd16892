/**
 * The analytics derived from the session history on every render: seconds per category
 * (rounded to minutes only for display), one timeline point per session, the focus and
 * distraction totals and the efficiency percentage. Durations are summed as exact
 * integers; every division by 60 or by the total is rounded once, where it is shown.
 */
module Dashboard {
  import opened Types
  import opened Rounding
  import opened Strings

  /** The sum of all durations. */
  function TotalSeconds(s: seq<FocusSession>): int
  {
    if s == [] then 0 else TotalSeconds(s[..|s| - 1]) + s[|s| - 1].duration
  }

  /** The sum of the durations of the sessions in category `c`. */
  function SecondsIn(s: seq<FocusSession>, c: TaskCategory): int
  {
    if s == [] then 0
    else SecondsIn(s[..|s| - 1], c) + if s[|s| - 1].category == c then s[|s| - 1].duration else 0
  }

  predicate Occurs(s: seq<FocusSession>, c: TaskCategory)
  {
    exists i :: 0 <= i < |s| && s[i].category == c
  }

  predicate Distinct(r: seq<TaskCategory>)
  {
    forall i, j :: 0 <= i < j < |r| ==> r[i] != r[j]
  }

  /** The categories of `s` in order of first appearance, each once. */
  function Categories(s: seq<FocusSession>): (r: seq<TaskCategory>)
    ensures Distinct(r)
    ensures forall c :: c in r <==> Occurs(s, c)
  {
    if s == [] then []
    else
      var p := Categories(s[..|s| - 1]);
      var c := s[|s| - 1].category;
      assert forall d :: Occurs(s, d) <==> Occurs(s[..|s| - 1], d) || d == c by {
        forall d | Occurs(s, d) ensures Occurs(s[..|s| - 1], d) || d == c {
          var i :| 0 <= i < |s| && s[i].category == d;
          if i < |s| - 1 {
            assert s[..|s| - 1][i] == s[i];
          }
        }
        forall d | Occurs(s[..|s| - 1], d) ensures Occurs(s, d) {
          var i :| 0 <= i < |s| - 1 && s[..|s| - 1][i].category == d;
          assert s[i].category == d;
        }
      }
      if c in p then p else p + [c]
  }

  /**
   * What the category `reduce` builds: a dictionary holding, for every category that occurs,
   * the sum of its durations, and no other key; `keys` is its key order (first insertion).
   */
  ghost predicate CategoryData(s: seq<FocusSession>, acc: map<TaskCategory, int>, keys: seq<TaskCategory>)
  {
    && keys == Categories(s)
    && (forall c :: c in acc <==> Occurs(s, c))
    && (forall c :: c in acc ==> acc[c] == SecondsIn(s, c))
  }

  /** `sessions.reduce(...)` into a dictionary keyed by category, starting from `{}`. */
  method CategoryDataMap(sessions: seq<FocusSession>) returns (acc: map<TaskCategory, int>, keys: seq<TaskCategory>)
    ensures CategoryData(sessions, acc, keys)
  {
    acc, keys := map[], [];
    var i := 0;
    while i < |sessions|
      invariant 0 <= i <= |sessions|
      invariant keys == Categories(sessions[..i])
      invariant forall c :: c in acc <==> c in keys
      invariant forall c :: c in acc ==> acc[c] == SecondsIn(sessions[..i], c)
    {
      var key := sessions[i].category;
      assert sessions[..i + 1][..i] == sessions[..i];
      assert forall c ::
        SecondsIn(sessions[..i + 1], c) == SecondsIn(sessions[..i], c) + (if key == c then sessions[i].duration else 0);
      var current := if key in acc then acc[key] else 0;
      if key !in acc {
        AbsentHasNoSeconds(sessions[..i], key);
        keys := keys + [key];
      }
      acc := acc[key := current + sessions[i].duration];
      i := i + 1;
    }
    assert sessions[..i] == sessions;
  }

  /** The sum of `acc` over `keys`. */
  function SumOver(acc: map<TaskCategory, int>, keys: seq<TaskCategory>): int
    requires forall c :: c in keys ==> c in acc
  {
    if keys == [] then 0 else SumOver(acc, keys[..|keys| - 1]) + acc[keys[|keys| - 1]]
  }

  /** The sum over `keys` of the seconds spent in each. */
  function SecondsOver(s: seq<FocusSession>, keys: seq<TaskCategory>): int
  {
    if keys == [] then 0 else SecondsOver(s, keys[..|keys| - 1]) + SecondsIn(s, keys[|keys| - 1])
  }

  /** A category that never occurs has no seconds. */
  lemma {:induction false} AbsentHasNoSeconds(s: seq<FocusSession>, c: TaskCategory)
    requires !Occurs(s, c)
    ensures SecondsIn(s, c) == 0
  {
    if s != [] {
      var p := s[..|s| - 1];
      assert forall i :: 0 <= i < |p| ==> p[i] == s[i];
      AbsentHasNoSeconds(p, c);
    }
  }

  /** Adding one session adds its duration to exactly the one term of its category. */
  lemma {:induction false} SecondsOverAppend(p: seq<FocusSession>, x: FocusSession, keys: seq<TaskCategory>)
    requires Distinct(keys)
    ensures SecondsOver(p + [x], keys) == SecondsOver(p, keys) + if x.category in keys then x.duration else 0
  {
    var s := p + [x];
    assert s[..|s| - 1] == p;
    if keys != [] {
      var init := keys[..|keys| - 1];
      assert Distinct(init);
      assert x.category in keys <==> x.category in init || x.category == keys[|keys| - 1];
      assert keys[|keys| - 1] !in init;
      SecondsOverAppend(p, x, init);
    }
  }

  /** The per-category seconds add up to the total, over the categories that occur. */
  lemma {:induction false} CategorySecondsSum(s: seq<FocusSession>)
    ensures SecondsOver(s, Categories(s)) == TotalSeconds(s)
  {
    if s != [] {
      var p, x := s[..|s| - 1], s[|s| - 1];
      assert s == p + [x];
      var keys := Categories(p);
      CategorySecondsSum(p);
      SecondsOverAppend(p, x, keys);
      if x.category !in keys {
        AbsentHasNoSeconds(p, x.category);
        assert (keys + [x.category])[..|keys|] == keys;
      }
    }
  }

  /** Summing the dictionary's values over its keys sums the per-category seconds. */
  lemma {:induction false} SumOverIsSecondsOver(s: seq<FocusSession>, acc: map<TaskCategory, int>, keys: seq<TaskCategory>)
    requires forall c :: c in keys ==> c in acc && acc[c] == SecondsIn(s, c)
    ensures SumOver(acc, keys) == SecondsOver(s, keys)
  {
    if keys != [] {
      SumOverIsSecondsOver(s, acc, keys[..|keys| - 1]);
    }
  }

  /** The category totals of the dictionary add up to the sum of all session durations. */
  lemma CategoryTotalsSum(s: seq<FocusSession>, acc: map<TaskCategory, int>, keys: seq<TaskCategory>)
    requires CategoryData(s, acc, keys)
    ensures (forall c :: c in keys ==> c in acc) && SumOver(acc, keys) == TotalSeconds(s)
  {
    SumOverIsSecondsOver(s, acc, keys);
    CategorySecondsSum(s);
  }

  /** One slice of the time-allocation chart: a category name and its minutes. */
  datatype Slice = Slice(name: string, value: int)

  /** `Object.entries(categoryDataMap).map(...)`: one slice per key, in key order. */
  function PieData(acc: map<TaskCategory, int>, keys: seq<TaskCategory>): (r: seq<Slice>)
    requires forall c :: c in keys ==> c in acc
    ensures |r| == |keys|
    ensures forall i :: 0 <= i < |r| ==>
      && r[i].name == CategoryName(keys[i])
      && 120 * r[i].value - 60 <= 2 * acc[keys[i]] < 120 * r[i].value + 60
  {
    seq(|keys|, i requires 0 <= i < |keys| => Slice(CategoryName(keys[i]), RoundDiv(acc[keys[i]], 60)))
  }

  /**
   * The chart has one slice per category that occurs, no two with the same name, and each
   * slice's value is that category's summed seconds rounded to minutes once.
   */
  lemma PieSlices(s: seq<FocusSession>, acc: map<TaskCategory, int>, keys: seq<TaskCategory>)
    requires CategoryData(s, acc, keys)
    ensures forall c :: c in keys ==> c in acc
    ensures var pie := PieData(acc, keys);
      && |pie| == |keys|
      && (forall c :: Occurs(s, c) <==> exists i :: 0 <= i < |pie| && pie[i].name == CategoryName(c))
      && (forall i, j :: 0 <= i < j < |pie| ==> pie[i].name != pie[j].name)
      && (forall i :: 0 <= i < |pie| ==>
            120 * pie[i].value - 60 <= 2 * SecondsIn(s, keys[i]) < 120 * pie[i].value + 60)
  {
    var pie := PieData(acc, keys);
    forall c | Occurs(s, c) ensures exists i :: 0 <= i < |pie| && pie[i].name == CategoryName(c) {
      var i :| 0 <= i < |keys| && keys[i] == c;
      assert pie[i].name == CategoryName(c);
    }
    forall c | exists i :: 0 <= i < |pie| && pie[i].name == CategoryName(c) ensures Occurs(s, c) {
      var i :| 0 <= i < |pie| && pie[i].name == CategoryName(c);
      CategoryNameInjective(keys[i], c);
    }
    forall i, j | 0 <= i < j < |pie| ensures pie[i].name != pie[j].name {
      CategoryNameInjective(keys[i], keys[j]);
    }
  }

  /** One bar pair of the focus-performance chart. */
  datatype TimelinePoint = TimelinePoint(name: string, minutes: int, distractions: nat)

  /** The label `S${idx + 1}` of the session at index `i`. */
  function SessionLabel(i: nat): string
  {
    "S" + DecimalString(i + 1)
  }

  /** `sessions.map((s, idx) => ...)`: one point per session, in history order. */
  function Timeline(s: seq<FocusSession>): (r: seq<TimelinePoint>)
    ensures |r| == |s|
    ensures forall i :: 0 <= i < |s| ==>
      && r[i].name == SessionLabel(i)
      && r[i].distractions == s[i].distractions
      && 120 * r[i].minutes - 60 <= 2 * s[i].duration < 120 * r[i].minutes + 60
  {
    seq(|s|, i requires 0 <= i < |s| => TimelinePoint(SessionLabel(i), RoundDiv(s[i].duration, 60), s[i].distractions))
  }

  /** The label of the point at index `i` is "S" followed by the number i + 1. */
  lemma SessionLabelNumber(i: nat)
    ensures |SessionLabel(i)| >= 2 && SessionLabel(i)[0] == 'S'
    ensures AllDigits(SessionLabel(i)[1..]) && ParseDecimal(SessionLabel(i)[1..]) == i + 1
  {
    assert SessionLabel(i)[1..] == DecimalString(i + 1);
    ParseDecimalString(i + 1);
  }

  /** No two timeline points share a label. */
  lemma TimelineLabelsDistinct(s: seq<FocusSession>)
    ensures forall i, j :: 0 <= i < j < |s| ==> Timeline(s)[i].name != Timeline(s)[j].name
  {
    forall i, j | 0 <= i < j < |s| ensures SessionLabel(i) != SessionLabel(j) {
      assert SessionLabel(i)[1..] == DecimalString(i + 1);
      assert SessionLabel(j)[1..] == DecimalString(j + 1);
      DecimalStringInjective(i + 1, j + 1);
    }
  }

  /** `sessions.filter(s => s.category !== TaskCategory.DISTRACTION)`. */
  function FocusSessions(s: seq<FocusSession>): (r: seq<FocusSession>)
    ensures |r| <= |s|
    ensures forall i :: 0 <= i < |r| ==> r[i].category != Distraction
  {
    if s == [] then []
    else FocusSessions(s[..|s| - 1]) + if s[|s| - 1].category != Distraction then [s[|s| - 1]] else []
  }

  /** `sessions.filter(s => s.category === TaskCategory.DISTRACTION)`. */
  function DistractionSessions(s: seq<FocusSession>): (r: seq<FocusSession>)
    ensures |r| <= |s|
    ensures forall i :: 0 <= i < |r| ==> r[i].category == Distraction
  {
    if s == [] then []
    else DistractionSessions(s[..|s| - 1]) + if s[|s| - 1].category == Distraction then [s[|s| - 1]] else []
  }

  /** The seconds behind `totalStudyMinutes`. */
  function FocusSeconds(s: seq<FocusSession>): int
  {
    TotalSeconds(FocusSessions(s))
  }

  /** The seconds behind `totalDistractionMinutes`. */
  function DistractionSeconds(s: seq<FocusSession>): int
  {
    TotalSeconds(DistractionSessions(s))
  }

  /** The sum over a list with one more session at the end. */
  lemma TotalSecondsAppend(p: seq<FocusSession>, x: seq<FocusSession>)
    requires |x| <= 1
    ensures TotalSeconds(p + x) == TotalSeconds(p) + if x == [] then 0 else x[0].duration
  {
    if x == [] {
      assert p + x == p;
    } else {
      assert (p + x)[..|p + x| - 1] == p;
    }
  }

  /**
   * The two filters split the history: focus seconds plus distraction seconds are all the
   * seconds, focus seconds are those of the four other categories, and distraction seconds
   * are those of the Distraction category.
   */
  lemma {:induction false} FocusDistractionPartition(s: seq<FocusSession>)
    ensures FocusSeconds(s) + DistractionSeconds(s) == TotalSeconds(s)
    ensures FocusSeconds(s) == SecondsIn(s, Study) + SecondsIn(s, Research) + SecondsIn(s, Coding) + SecondsIn(s, Writing)
    ensures DistractionSeconds(s) == SecondsIn(s, Distraction)
  {
    if s != [] {
      var p, x := s[..|s| - 1], s[|s| - 1];
      FocusDistractionPartition(p);
      TotalSecondsAppend(FocusSessions(p), if x.category != Distraction then [x] else []);
      TotalSecondsAppend(DistractionSessions(p), if x.category == Distraction then [x] else []);
    }
  }

  /** With no negative durations, every sum of durations is non-negative. */
  lemma {:induction false} TotalSecondsNonNegative(s: seq<FocusSession>)
    requires forall i :: 0 <= i < |s| ==> s[i].duration >= 0
    ensures TotalSeconds(s) >= 0
    ensures forall c :: SecondsIn(s, c) >= 0
  {
    if s != [] {
      TotalSecondsNonNegative(s[..|s| - 1]);
    }
  }

  /** With no negative durations, neither the focus nor the distraction total is negative. */
  lemma FocusDistractionNonNegative(s: seq<FocusSession>)
    requires forall i :: 0 <= i < |s| ==> s[i].duration >= 0
    ensures FocusSeconds(s) >= 0 && DistractionSeconds(s) >= 0
  {
    FocusDistractionPartition(s);
    TotalSecondsNonNegative(s);
  }

  /** `Math.round(totalStudyMinutes)`, the focus figure shown. */
  function FocusMinutes(s: seq<FocusSession>): (r: int)
    ensures 120 * r - 60 <= 2 * FocusSeconds(s) < 120 * r + 60
  {
    RoundDiv(FocusSeconds(s), 60)
  }

  /** `Math.round(totalDistractionMinutes)`, the distraction figure shown. */
  function DistractionMinutes(s: seq<FocusSession>): (r: int)
    ensures 120 * r - 60 <= 2 * DistractionSeconds(s) < 120 * r + 60
  {
    RoundDiv(DistractionSeconds(s), 60)
  }

  /**
   * The efficiency percentage: `Math.round(focus / (focus + distraction) * 100)` when the
   * summed minutes are positive and 0 otherwise. The factor 1/60 of both minute totals
   * cancels, so it is computed from seconds.
   */
  function Efficiency(s: seq<FocusSession>): (r: int)
    ensures var f, t := FocusSeconds(s), FocusSeconds(s) + DistractionSeconds(s);
      && (t <= 0 ==> r == 0)
      && (t > 0 ==> 2 * t * r - t <= 200 * f < 2 * t * r + t)
  {
    var f, d := FocusSeconds(s), DistractionSeconds(s);
    if f + d > 0 then RoundDiv(100 * f, f + d) else 0
  }

  /**
   * The rounded percentage of a non-negative part `f` in a positive whole `f + d` lies in
   * [0, 100], and is 100 when the other part `d` is 0.
   */
  lemma PercentBounds(f: int, d: int, r: int)
    requires 0 <= f && 0 <= d && f + d > 0
    requires 2 * (f + d) * r - (f + d) <= 200 * f < 2 * (f + d) * r + (f + d)
    ensures 0 <= r <= 100
    ensures d == 0 ==> r == 100
  {
    var t := f + d;
    if r < 0 {
      MulStep(2 * t, r, 0);
    } else if r > 100 {
      MulStep(2 * t, 100, r);
    } else if d == 0 && r < 100 {
      MulStep(2 * t, r, 100);
    }
  }

  /**
   * With no negative durations the efficiency is a percentage: 0 for an empty total, 100
   * when there is focus time and no distraction time, and between 0 and 100 in any case.
   */
  lemma EfficiencyBounds(s: seq<FocusSession>)
    requires forall i :: 0 <= i < |s| ==> s[i].duration >= 0
    ensures 0 <= Efficiency(s) <= 100
    ensures TotalSeconds(s) == 0 ==> Efficiency(s) == 0
    ensures DistractionSeconds(s) == 0 && FocusSeconds(s) > 0 ==> Efficiency(s) == 100
  {
    var f, d, r := FocusSeconds(s), DistractionSeconds(s), Efficiency(s);
    FocusDistractionPartition(s);
    FocusDistractionNonNegative(s);
    if f + d > 0 {
      PercentBounds(f, d, r);
    }
  }

  /** Every focus session is a session of the history. */
  lemma {:induction false} FocusSessionsAreSessions(s: seq<FocusSession>)
    ensures forall i :: 0 <= i < |FocusSessions(s)| ==> FocusSessions(s)[i] in s
  {
    if s != [] {
      var p := s[..|s| - 1];
      FocusSessionsAreSessions(p);
      assert forall x :: x in p ==> x in s;
    }
  }
}
