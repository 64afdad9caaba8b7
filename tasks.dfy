/**
 * Stored tasks and the queries the handlers run over the collection:
 * the `filter`, `find` and `findIndex` predicates, and the decoding of the
 * `completed` query parameter.
 */
module Tasks {
  import opened Json

  /** A task is the JSON object stored in the backing document. */
  type Task = map<string, Json>

  /** The callbacks the handlers hand to `filter`, `find` and `findIndex`. */
  datatype Criterion =
    | IdIs(id: string)           // the task's `id` is the string `id`
    | CompletedIs(flag: bool)    // the task's `completed` is the boolean `flag`
    | PriorityIs(level: string)  // the task's `priority` is the string `level`

  /** Strict equality: a missing key equals no string and no boolean. */
  predicate Matches(t: Task, c: Criterion)
  {
    match c
    case IdIs(id) => "id" in t && t["id"] == JStr(id)
    case CompletedIs(flag) => "completed" in t && t["completed"] == JBool(flag)
    case PriorityIs(level) => "priority" in t && t["priority"] == JStr(level)
  }

  /** `s.filter(c)`: the matching tasks, in stored order. */
  function Filter(s: seq<Task>, c: Criterion): (r: seq<Task>)
    ensures |r| <= |s|
    ensures forall k :: 0 <= k < |r| ==> Matches(r[k], c)
  {
    if s == [] then []
    else
      var init := Filter(s[..|s| - 1], c);
      if Matches(s[|s| - 1], c) then init + [s[|s| - 1]] else init
  }

  /** The indices of the matching tasks (see PositionsSpec). */
  function Positions(s: seq<Task>, c: Criterion): seq<nat>
  {
    if s == [] then []
    else
      var init := Positions(s[..|s| - 1], c);
      if Matches(s[|s| - 1], c) then init + [|s| - 1] else init
  }

  /** The positions are increasing indices of matching tasks, and every matching index is among them. */
  lemma {:induction false} PositionsSpec(s: seq<Task>, c: Criterion)
    ensures var idx := Positions(s, c);
      && (forall k :: 0 <= k < |idx| ==> idx[k] < |s| && Matches(s[idx[k]], c))
      && (forall j, k :: 0 <= j < k < |idx| ==> idx[j] < idx[k])
      && (forall i :: 0 <= i < |s| && Matches(s[i], c) ==> i in idx)
  {
    if s != [] {
      var init := s[..|s| - 1];
      PositionsSpec(init, c);
      var idx0 := Positions(init, c);
      assert forall k :: 0 <= k < |idx0| ==> idx0[k] < |init| && Matches(init[idx0[k]], c);
      assert forall i :: 0 <= i < |init| ==> s[i] == init[i];
    }
  }

  /** `r` consists of exactly the tasks of `s` that match `c`, in the order they are stored. */
  ghost predicate Selects(s: seq<Task>, r: seq<Task>, c: Criterion)
  {
    var idx := Positions(s, c);
    |r| == |idx| && forall k :: 0 <= k < |r| ==> idx[k] < |s| && r[k] == s[idx[k]]
  }

  /** `filter` selects the matching tasks in stored order. */
  lemma {:induction false} FilterSelects(s: seq<Task>, c: Criterion)
    ensures Selects(s, Filter(s, c), c)
  {
    if s != [] {
      var init := s[..|s| - 1];
      FilterSelects(init, c);
      var r0, idx0 := Filter(init, c), Positions(init, c);
      assert forall k :: 0 <= k < |r0| ==> idx0[k] < |init| && r0[k] == s[idx0[k]];
    }
  }

  /** `filter` distributes over concatenation. */
  lemma {:induction false} FilterConcat(s: seq<Task>, t: seq<Task>, c: Criterion)
    ensures Filter(s + t, c) == Filter(s, c) + Filter(t, c)
    decreases |t|
  {
    if t == [] {
      assert s + t == s;
    } else {
      var n := |t| - 1;
      assert (s + t)[..|s + t| - 1] == s + t[..n];
      FilterConcat(s, t[..n], c);
    }
  }

  /** `filter` yields nothing exactly when no task matches. */
  lemma {:induction false} FilterEmptyIff(s: seq<Task>, c: Criterion)
    ensures Filter(s, c) == [] <==> forall k :: 0 <= k < |s| ==> !Matches(s[k], c)
  {
    FilterSelects(s, c);
    PositionsSpec(s, c);
    if Filter(s, c) != [] {
      assert Matches(Filter(s, c)[0], c);
    }
  }

  /** `findIndex`: the first matching index, or None (the source's -1). */
  function FindIndex(s: seq<Task>, c: Criterion): (r: Option<nat>)
    ensures r.Some? ==> r.value < |s| && Matches(s[r.value], c)
    ensures r.Some? ==> forall j :: 0 <= j < r.value ==> !Matches(s[j], c)
    ensures r.None? <==> forall j :: 0 <= j < |s| ==> !Matches(s[j], c)
  {
    if s == [] then None
    else if Matches(s[0], c) then Some(0)
    else
      match FindIndex(s[1..], c)
      case None => None
      case Some(i) => Some(i + 1)
  }

  /** `filter` of a single task. */
  lemma FilterSingle(t: Task, c: Criterion)
    ensures Filter([t], c) == if Matches(t, c) then [t] else []
  {
    assert [t][..0] == [];
  }

  /** When the first match is at `i`, it heads the filter result. */
  lemma FilterHeadAt(s: seq<Task>, i: nat, c: Criterion)
    requires i < |s| && Matches(s[i], c)
    requires forall j :: 0 <= j < i ==> !Matches(s[j], c)
    ensures Filter(s, c) != [] && Filter(s, c)[0] == s[i]
  {
    assert s == s[..i] + ([s[i]] + s[i + 1..]);
    FilterEmptyIff(s[..i], c);
    FilterSingle(s[i], c);
    FilterConcat([s[i]], s[i + 1..], c);
    FilterConcat(s[..i], [s[i]] + s[i + 1..], c);
  }

  /** `find` returns the head of what `filter` returns, and finds nothing when `filter` is empty. */
  lemma FindIsFirstOfFilter(s: seq<Task>, c: Criterion)
    ensures FindIndex(s, c).None? <==> Filter(s, c) == []
    ensures FindIndex(s, c).Some? ==> Filter(s, c) != [] && Filter(s, c)[0] == s[FindIndex(s, c).value]
  {
    FilterEmptyIff(s, c);
    if FindIndex(s, c).Some? {
      FilterHeadAt(s, FindIndex(s, c).value, c);
    }
  }

  /**
   * Removing the task at index `i` withdraws exactly that task from the
   * selection when it matches, and leaves the selection alone otherwise.
   */
  lemma RemoveAtFilter(s: seq<Task>, i: nat, c: Criterion)
    requires i < |s|
    ensures Filter(s, c) == Filter(s[..i], c) + (if Matches(s[i], c) then [s[i]] else []) + Filter(s[i + 1..], c)
    ensures Filter(s[..i] + s[i + 1..], c) == Filter(s[..i], c) + Filter(s[i + 1..], c)
    ensures |Filter(s[..i] + s[i + 1..], c)| == |Filter(s, c)| - (if Matches(s[i], c) then 1 else 0)
  {
    assert s == s[..i] + ([s[i]] + s[i + 1..]);
    FilterConcat(s[..i], s[i + 1..], c);
    FilterSingle(s[i], c);
    FilterConcat([s[i]], s[i + 1..], c);
    FilterConcat(s[..i], [s[i]] + s[i + 1..], c);
  }

  /** A query parameter as the query-string parser delivers it. */
  datatype QueryParam =
    | Missing                 // undefined
    | Text(value: string)     // ?completed=...
    | Composite               // an array or object (?completed=a&completed=b, ?completed[x]=y)

  /**
   * Lower-casing. Only A-Z are mapped: no other character lower-cases to
   * one of the letters of "false", so the comparison below is unaffected.
   */
  function LowerChar(ch: char): char
  {
    if 'A' <= ch <= 'Z' then (ch as int + 32) as char else ch
  }

  function Lower(s: string): string
  {
    seq(|s|, k requires 0 <= k < |s| => LowerChar(s[k]))
  }

  /**
   * The `completed` flag of the listing: false when the parameter is missing
   * or lower-cases to "false", true for every other string. None stands for
   * the TypeError that `toLowerCase` raises on an array or object.
   */
  function CompletedFlag(p: QueryParam): Option<bool>
  {
    match p
    case Missing => Some(false)
    case Text(v) => Some(Lower(v) != "false")
    case Composite => None
  }

  /** The flag is false exactly for a missing parameter and for the 32 spellings of "false" in any case. */
  lemma CompletedFlagFalse(p: QueryParam)
    ensures CompletedFlag(p) == Some(false) <==>
      || p.Missing?
      || (p.Text? && |p.value| == 5 && forall k :: 0 <= k < 5 ==> p.value[k] == "false"[k] || p.value[k] == "FALSE"[k])
    ensures CompletedFlag(p) == None <==> p.Composite?
  {
    if p.Text? {
      var v := p.value;
      if |v| == 5 && forall k :: 0 <= k < 5 ==> v[k] == "false"[k] || v[k] == "FALSE"[k] {
        assert Lower(v) == "false" by {
          forall k | 0 <= k < 5
            ensures Lower(v)[k] == "false"[k]
          {
          }
        }
      }
      if Lower(v) == "false" {
        assert |v| == 5;
        forall k | 0 <= k < 5
          ensures v[k] == "false"[k] || v[k] == "FALSE"[k]
        {
          assert LowerChar(v[k]) == "false"[k];
        }
      }
    }
  }

  lemma CompletedFlagExamples()
    ensures CompletedFlag(Missing) == Some(false)
    ensures CompletedFlag(Text("false")) == Some(false)
    ensures CompletedFlag(Text("False")) == Some(false)
    ensures CompletedFlag(Text("true")) == Some(true)
    ensures CompletedFlag(Text("TRUE")) == Some(true)
    ensures CompletedFlag(Text("yes")) == Some(true)
    ensures CompletedFlag(Text("")) == Some(true)
  {
    CompletedFlagFalse(Text("False"));
    CompletedFlagFalse(Text("TRUE"));
    CompletedFlagFalse(Text("true"));
    CompletedFlagFalse(Text("yes"));
  }
}
