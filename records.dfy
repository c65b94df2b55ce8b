/** Workout records and the pure views the client derives from the record list: the
    entry `addFitnessData` appends, `getWorkoutsForDate` and `calculateWeeklyStats`. */
module Records {
  import opened Wrappers
  import opened Numbers
  import opened Codec

  /** One workout entry (`FitnessData`). */
  datatype FitnessData = FitnessData(
    id: int,
    date: string,
    workoutType: string,
    duration: nat,
    calories: nat,
    encrypted: string)

  /** The add form's values (`newData`). */
  datatype NewData = NewData(date: string, workoutType: string, duration: nat, calories: nat)

  // ---------------------------------------------------------------- filtering

  /** `Array.prototype.filter`. */
  function Filter<T>(s: seq<T>, p: T -> bool): (r: seq<T>)
    ensures |r| <= |s|
    decreases |s|
  {
    if s == [] then [] else (if p(s[0]) then [s[0]] else []) + Filter(s[1..], p)
  }

  /** `a` can be obtained from `b` by deleting elements. */
  predicate IsSubsequence<T(==)>(a: seq<T>, b: seq<T>)
    decreases |b|
  {
    a == [] || (b != [] && ((a[0] == b[0] && IsSubsequence(a[1..], b[1..])) || IsSubsequence(a, b[1..])))
  }

  lemma {:induction false} FilterAppend<T>(a: seq<T>, b: seq<T>, p: T -> bool)
    ensures Filter(a + b, p) == Filter(a, p) + Filter(b, p)
    decreases |a|
  {
    if a == [] {
      assert a + b == b;
    } else {
      var head := if p(a[0]) then [a[0]] else [];
      assert (a + b)[0] == a[0];
      assert (a + b)[1..] == a[1..] + b;
      assert Filter(a + b, p) == head + Filter(a[1..] + b, p);
      FilterAppend(a[1..], b, p);
      assert head + (Filter(a[1..], p) + Filter(b, p)) == (head + Filter(a[1..], p)) + Filter(b, p);
    }
  }

  /** The filter keeps exactly the elements that satisfy `p`. */
  lemma {:induction false} FilterMembers<T>(s: seq<T>, p: T -> bool)
    ensures forall x :: x in Filter(s, p) <==> x in s && p(x)
    decreases |s|
  {
    if s != [] {
      FilterMembers(s[1..], p);
      assert s == [s[0]] + s[1..];
    }
  }

  /** ... each as often as it occurs in `s`. */
  lemma {:induction false} FilterMultiset<T>(s: seq<T>, p: T -> bool)
    ensures forall x :: multiset(Filter(s, p))[x] == if p(x) then multiset(s)[x] else 0
    decreases |s|
  {
    if s != [] {
      FilterMultiset(s[1..], p);
      assert s == [s[0]] + s[1..];
      assert multiset(s) == multiset([s[0]]) + multiset(s[1..]);
    }
  }

  /** ... in their original order. */
  lemma {:induction false} FilterSubsequence<T>(s: seq<T>, p: T -> bool)
    ensures IsSubsequence(Filter(s, p), s)
    decreases |s|
  {
    if s != [] {
      FilterSubsequence(s[1..], p);
      var r := Filter(s[1..], p);
      if p(s[0]) {
        assert Filter(s, p) == [s[0]] + r;
        assert ([s[0]] + r)[1..] == r;
      } else {
        assert Filter(s, p) == r;
      }
    }
  }

  /** Filtering a second time changes nothing. */
  lemma {:induction false} FilterIdempotent<T>(s: seq<T>, p: T -> bool)
    ensures Filter(Filter(s, p), p) == Filter(s, p)
    decreases |s|
  {
    if s != [] {
      FilterIdempotent(s[1..], p);
      var r := Filter(s[1..], p);
      if p(s[0]) {
        assert Filter(s, p) == [s[0]] + r;
        FilterAppend([s[0]], r, p);
        assert [s[0]][1..] == [];
      } else {
        assert Filter(s, p) == r;
      }
    }
  }

  /** The indices of the elements of `s` that satisfy `p`. */
  function Indices<T>(s: seq<T>, p: T -> bool): set<nat> {
    set i: nat | i < |s| && p(s[i])
  }

  /** The filter's length is the number of positions whose element satisfies `p`. */
  lemma {:induction false} FilterCount<T>(s: seq<T>, p: T -> bool)
    ensures |Filter(s, p)| == |Indices(s, p)|
    decreases |s|
  {
    if s != [] {
      var init := s[..|s| - 1];
      var last := s[|s| - 1];
      assert s == init + [last];
      FilterAppend(init, [last], p);
      FilterCount(init, p);
      assert [last][1..] == [];
      var before := Indices(init, p);
      var kept := if p(last) then {|s| - 1} else {};
      assert Indices(s, p) == before + kept by {
        forall i | i in Indices(s, p) ensures i in before + kept {
          if i < |s| - 1 {
            assert init[i] == s[i];
          }
        }
        forall i | i in before ensures i in Indices(s, p) {
          assert init[i] == s[i];
        }
      }
      assert |s| - 1 !in before;
    }
  }

  // ---------------------------------------------------------------- per-date view

  /** `getWorkoutsForDate`. */
  function WorkoutsForDate(data: seq<FitnessData>, date: string): seq<FitnessData> {
    Filter(data, (r: FitnessData) => r.date == date)
  }

  /** The records listed for a date are exactly those of that date, with their
      multiplicities and in list order; listing them again gives the same list. */
  lemma WorkoutsForDateSpec(data: seq<FitnessData>, date: string)
    ensures forall r :: r in WorkoutsForDate(data, date) <==> r in data && r.date == date
    ensures forall r: FitnessData :: r.date == date ==> multiset(WorkoutsForDate(data, date))[r] == multiset(data)[r]
    ensures IsSubsequence(WorkoutsForDate(data, date), data)
    ensures WorkoutsForDate(WorkoutsForDate(data, date), date) == WorkoutsForDate(data, date)
  {
    var p := (r: FitnessData) => r.date == date;
    FilterMembers(data, p);
    FilterMultiset(data, p);
    FilterSubsequence(data, p);
    FilterIdempotent(data, p);
  }

  // ---------------------------------------------------------------- weekly statistics

  /** `new Date(item.date) >= cutoff`, where `dateValue` stands for the `Date` parse (in
      milliseconds) and `None` for an invalid date, which compares false. */
  predicate InWindow(r: FitnessData, dateValue: string -> Option<int>, cutoff: int) {
    match dateValue(r.date)
    case Some(t) => t >= cutoff
    case None => false
  }

  /** `last7Days`: the records not dated before the cutoff; there is no upper bound. */
  function Last7Days(data: seq<FitnessData>, dateValue: string -> Option<int>, cutoff: int): seq<FitnessData> {
    Filter(data, (r: FitnessData) => InWindow(r, dateValue, cutoff))
  }

  /** `reduce((sum, item) => sum + item.duration, 0)`. */
  function TotalDuration(rs: seq<FitnessData>): nat
    decreases |rs|
  {
    if rs == [] then 0 else rs[0].duration + TotalDuration(rs[1..])
  }

  /** `reduce((sum, item) => sum + item.calories, 0)`. */
  function TotalCalories(rs: seq<FitnessData>): nat
    decreases |rs|
  {
    if rs == [] then 0 else rs[0].calories + TotalCalories(rs[1..])
  }

  lemma {:induction false} TotalsAppend(a: seq<FitnessData>, b: seq<FitnessData>)
    ensures TotalDuration(a + b) == TotalDuration(a) + TotalDuration(b)
    ensures TotalCalories(a + b) == TotalCalories(a) + TotalCalories(b)
    decreases |a|
  {
    if a == [] {
      assert a + b == b;
    } else {
      assert (a + b)[1..] == a[1..] + b;
      TotalsAppend(a[1..], b);
    }
  }

  /** The mean of `count` values summing to `total`, and 0 when there are none; exact
      (the client's floating-point division rounds). */
  function Average(total: nat, count: nat): (r: real)
    ensures count == 0 ==> r == 0.0
    ensures count > 0 ==> r * count as real == total as real
  {
    if count > 0 then total as real / count as real else 0.0
  }

  /** The result of `calculateWeeklyStats`. */
  datatype WeeklyStats = WeeklyStats(
    workouts: nat,
    totalDuration: nat,
    totalCalories: nat,
    avgDuration: real,
    avgCalories: real)

  /** `calculateWeeklyStats`, for the list `data` and the instant `cutoff`, seven days
      before now. */
  function CalculateWeeklyStats(data: seq<FitnessData>, dateValue: string -> Option<int>, cutoff: int): (s: WeeklyStats)
    ensures s.workouts <= |data|
    ensures s.workouts == 0 ==> s.avgDuration == 0.0 && s.avgCalories == 0.0
    ensures s.workouts > 0 ==> s.avgDuration * s.workouts as real == s.totalDuration as real
    ensures s.workouts > 0 ==> s.avgCalories * s.workouts as real == s.totalCalories as real
  {
    var week := Last7Days(data, dateValue, cutoff);
    var totalDuration := TotalDuration(week);
    var totalCalories := TotalCalories(week);
    WeeklyStats(|week|, totalDuration, totalCalories,
                Average(totalDuration, |week|), Average(totalCalories, |week|))
  }

  /** `workouts` is the number of positions of the list whose record is in the window. */
  lemma WeeklyWorkoutsCount(data: seq<FitnessData>, dateValue: string -> Option<int>, cutoff: int)
    ensures CalculateWeeklyStats(data, dateValue, cutoff).workouts
         == |set i: nat | i < |data| && InWindow(data[i], dateValue, cutoff)|
  {
    var p := (r: FitnessData) => InWindow(r, dateValue, cutoff);
    FilterCount(data, p);
    assert Indices(data, p) == set i: nat | i < |data| && InWindow(data[i], dateValue, cutoff);
  }

  /** The statistics count a record exactly when its date is valid and not before the
      cutoff: a date in the future counts, an invalid date does not. */
  lemma WeeklyWindowMembers(data: seq<FitnessData>, dateValue: string -> Option<int>, cutoff: int)
    ensures forall r :: r in Last7Days(data, dateValue, cutoff) <==>
      r in data && dateValue(r.date).Some? && dateValue(r.date).value >= cutoff
  {
    FilterMembers(data, (r: FitnessData) => InWindow(r, dateValue, cutoff));
  }

  /** Appending a record adds it to the statistics exactly when it is in the window: the
      totals are the sums over exactly the records in the window. */
  lemma WeeklyStatsAppend(data: seq<FitnessData>, r: FitnessData, dateValue: string -> Option<int>, cutoff: int)
    ensures var before := CalculateWeeklyStats(data, dateValue, cutoff);
            var after := CalculateWeeklyStats(data + [r], dateValue, cutoff);
            if InWindow(r, dateValue, cutoff) then
              && after.workouts == before.workouts + 1
              && after.totalDuration == before.totalDuration + r.duration
              && after.totalCalories == before.totalCalories + r.calories
            else
              after == before
  {
    var p := (x: FitnessData) => InWindow(x, dateValue, cutoff);
    FilterAppend(data, [r], p);
    assert [r][1..] == [];
    var week := Filter(data, p);
    if p(r) {
      assert Filter([r], p) == [r];
      TotalsAppend(week, [r]);
    } else {
      assert Filter([r], p) == [];
      assert week + [] == week;
    }
  }

  /** The weekly totals never exceed the totals of the whole list. */
  lemma {:induction false} WeeklyTotalsBounded(data: seq<FitnessData>, dateValue: string -> Option<int>, cutoff: int)
    ensures CalculateWeeklyStats(data, dateValue, cutoff).totalDuration <= TotalDuration(data)
    ensures CalculateWeeklyStats(data, dateValue, cutoff).totalCalories <= TotalCalories(data)
    decreases |data|
  {
    if data != [] {
      var init := data[..|data| - 1];
      var last := data[|data| - 1];
      assert data == init + [last];
      WeeklyTotalsBounded(init, dateValue, cutoff);
      WeeklyStatsAppend(init, last, dateValue, cutoff);
      TotalsAppend(init, [last]);
      assert [last][1..] == [];
    }
  }

  // ---------------------------------------------------------------- adding records

  /** The entry `addFitnessData` builds when the list holds `count` records. */
  function NewEntry(count: nat, input: NewData): (e: FitnessData)
    ensures e.id == count + 1
    ensures e.date == input.date && e.workoutType == input.workoutType
    ensures e.duration == input.duration && e.calories == input.calories
    ensures e.encrypted == EncryptNumber(input.duration * input.calories)
  {
    FitnessData(count + 1, input.date, input.workoutType, input.duration, input.calories,
                EncryptNumber(input.duration * input.calories))
  }

  /** A record's score token decodes to its duration times its calories. */
  predicate ScoreConsistent(r: FitnessData) {
    DecryptNumber(r.encrypted) == Value(Finite(r.duration * r.calories))
  }

  /** A record whose token was made from its duration times its calories is
      consistent. */
  lemma EncryptedScoreConsistent(r: FitnessData)
    requires r.encrypted == EncryptNumber(r.duration * r.calories)
    ensures ScoreConsistent(r)
  {
    DecryptEncrypt(r.duration * r.calories);
  }

  /** The entry's score token decodes back to the duration times the calories. */
  lemma NewEntryScoreConsistent(count: nat, input: NewData)
    ensures ScoreConsistent(NewEntry(count, input))
  {
    EncryptedScoreConsistent(NewEntry(count, input));
  }

  /** `[...fitnessData, newEntry]`. */
  function Appended(data: seq<FitnessData>, input: NewData): seq<FitnessData> {
    data + [NewEntry(|data|, input)]
  }

  /** `acc` with the entries `mk` builds for `inputs` appended one at a time, each built
      from the list's length at that point. */
  function Grow<T, U>(acc: seq<T>, inputs: seq<U>, mk: (nat, U) -> T): seq<T>
    decreases |inputs|
  {
    if inputs == [] then acc else Grow(acc + [mk(|acc|, inputs[0])], inputs[1..], mk)
  }

  lemma {:induction false} GrowSpec<T, U>(acc: seq<T>, inputs: seq<U>, mk: (nat, U) -> T)
    ensures |Grow(acc, inputs, mk)| == |acc| + |inputs|
    ensures Grow(acc, inputs, mk)[..|acc|] == acc
    ensures forall k :: 0 <= k < |inputs| ==> Grow(acc, inputs, mk)[|acc| + k] == mk(|acc| + k, inputs[k])
    decreases |inputs|
  {
    if inputs != [] {
      var next := acc + [mk(|acc|, inputs[0])];
      GrowSpec(next, inputs[1..], mk);
      var all := Grow(acc, inputs, mk);
      assert all == Grow(next, inputs[1..], mk);
      assert all[..|acc|] == all[..|next|][..|acc|];
      forall k | 0 <= k < |inputs| ensures all[|acc| + k] == mk(|acc| + k, inputs[k]) {
        if k == 0 {
          assert all[|acc|] == all[..|next|][|acc|];
        } else {
          assert inputs[1..][k - 1] == inputs[k];
          assert |next| + (k - 1) == |acc| + k;
        }
      }
    }
  }

  /** The lists produced by a series of successful adds. */
  function AddAll(data: seq<FitnessData>, inputs: seq<NewData>): seq<FitnessData> {
    Grow(data, inputs, NewEntry)
  }

  /** A series of adds keeps every earlier record and appends, for the `k`-th input, the
      entry built when the list held `|data| + k` records. */
  lemma AddAllSpec(data: seq<FitnessData>, inputs: seq<NewData>)
    ensures |AddAll(data, inputs)| == |data| + |inputs|
    ensures AddAll(data, inputs)[..|data|] == data
    ensures forall k :: 0 <= k < |inputs| ==> AddAll(data, inputs)[|data| + k] == NewEntry(|data| + k, inputs[k])
  {
    GrowSpec(data, inputs, NewEntry);
  }

  /** The first add of a series is `Appended`. */
  lemma AddAllFirst(data: seq<FitnessData>, inputs: seq<NewData>)
    requires inputs != []
    ensures AddAll(data, inputs) == AddAll(Appended(data, inputs[0]), inputs[1..])
  {
  }

  /** N adds to an empty list give the ids 1..N, in insertion order. */
  lemma AddsFromEmptyNumbered(inputs: seq<NewData>)
    ensures |AddAll([], inputs)| == |inputs|
    ensures forall k :: 0 <= k < |inputs| ==> AddAll([], inputs)[k].id == k + 1
  {
    var all := AddAll([], inputs);
    AddAllSpec([], inputs);
    forall k | 0 <= k < |inputs| ensures all[k].id == k + 1 {
      var e := NewEntry(k, inputs[k]);
      assert all[0 + k] == e;
    }
  }

  /** Adds keep every record's score consistent when every earlier one was. */
  lemma {:induction false} AddAllScoresConsistent(data: seq<FitnessData>, inputs: seq<NewData>)
    requires forall i :: 0 <= i < |data| ==> ScoreConsistent(data[i])
    ensures forall i :: 0 <= i < |AddAll(data, inputs)| ==> ScoreConsistent(AddAll(data, inputs)[i])
    decreases |inputs|
  {
    if inputs != [] {
      var e := NewEntry(|data|, inputs[0]);
      var next := data + [e];
      NewEntryScoreConsistent(|data|, inputs[0]);
      assert forall i :: 0 <= i < |next| ==> ScoreConsistent(next[i]) by {
        forall i | 0 <= i < |next| ensures ScoreConsistent(next[i]) {
          if i < |data| {
            assert next[i] == data[i];
          } else {
            assert next[i] == e;
          }
        }
      }
      AddAllScoresConsistent(next, inputs[1..]);
      AddAllFirst(data, inputs);
    }
  }
}
