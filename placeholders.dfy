/** `getPlacholders`: the `key=%arg` assignments of a macro body line, which name the macro
 *  arguments a step forwards. */
module Placeholders {
  import opened Wrappers
  import opened JsString

  predicate IsWord(w: string) {
    w != [] && forall j :: 0 <= j < |w| ==> IsWordChar(w[j])
  }

  /** Length of the leading run of `\w` characters. */
  function WordRun(s: string): (n: nat)
    ensures n <= |s|
  {
    if s != [] && IsWordChar(s[0]) then 1 + WordRun(s[1..]) else 0
  }

  /** The run is made of word characters and stops at the first other one. */
  lemma {:induction false} WordRunProps(s: string)
    ensures forall j :: 0 <= j < WordRun(s) ==> IsWordChar(s[j])
    ensures WordRun(s) < |s| ==> !IsWordChar(s[WordRun(s)])
  {
    if s != [] && IsWordChar(s[0]) {
      WordRunProps(s[1..]);
    }
  }

  /** The match of `(\w+)=(%\w+)` at the start of `s`, as (key length, match length). */
  function AssignmentAt(s: string): (r: Option<(nat, nat)>)
    ensures r.Some? ==> 0 < r.value.0 && r.value.0 + 2 < r.value.1 <= |s|
  {
    var k := WordRun(s);
    if k == 0 || k + 1 >= |s| || s[k] != '=' || s[k + 1] != '%' then None
    else
      var v := WordRun(s[k + 2..]);
      if v == 0 then None else Some((k, k + 2 + v))
  }

  /** The `matchAll` loop as a tail-recursive function: every match writes `key -> '%value'`
   *  into the accumulator, a later one overwriting an earlier one of the same key. */
  function Collect(s: string, acc: map<string, string>): map<string, string>
    decreases |s|
  {
    if s == [] then acc
    else match AssignmentAt(s)
      case None => Collect(s[1..], acc)
      case Some((k, n)) => Collect(s[n..], acc[s[..k] := s[k + 1..n]])
  }

  /** `getPlacholders`. */
  method GetPlaceholders(text: string) returns (result: map<string, string>)
    ensures result == Collect(text, map[])
  {
    result := map[];
    var pos := 0;
    while pos < |text|
      invariant 0 <= pos <= |text|
      invariant Collect(text[pos..], result) == Collect(text, map[])
    {
      var rest := text[pos..];
      var m := AssignmentAt(rest);
      if m.None? {
        CollectSkip(rest, result);
        assert text[pos + 1..] == rest[1..];
        pos := pos + 1;
      } else {
        var k, n := m.value.0, m.value.1;
        CollectTake(rest, result, k, n);
        assert text[pos + n..] == rest[n..];
        result := result[rest[..k] := rest[k + 1..n]];
        pos := pos + n;
      }
    }
    assert text[pos..] == [];
  }

  lemma CollectSkip(s: string, acc: map<string, string>)
    requires s != [] && AssignmentAt(s).None?
    ensures Collect(s, acc) == Collect(s[1..], acc)
  {
  }

  lemma CollectTake(s: string, acc: map<string, string>, k: nat, n: nat)
    requires AssignmentAt(s) == Some((k, n))
    ensures n <= |s| && Collect(s, acc) == Collect(s[n..], acc[s[..k] := s[k + 1..n]])
  {
  }

  /** A placeholder entry: a word key and a value that is `%` followed by a word. */
  predicate IsPlaceholderEntry(key: string, value: string) {
    IsWord(key) && |value| >= 2 && value[0] == '%' && IsWord(value[1..])
  }

  /** Every recorded key is a word and every recorded value is `%` followed by a word; in
   *  particular assignments whose value does not start with `%` are never recorded. */
  lemma {:induction false} CollectEntries(s: string, acc: map<string, string>)
    requires forall k :: k in acc ==> IsPlaceholderEntry(k, acc[k])
    ensures forall k :: k in Collect(s, acc) ==> IsPlaceholderEntry(k, Collect(s, acc)[k])
    decreases |s|
  {
    if s != [] {
      match AssignmentAt(s)
      case None => CollectEntries(s[1..], acc);
      case Some((k, n)) =>
        var key, value := s[..k], s[k + 1..n];
        WordRunProps(s);
        WordRunProps(s[k + 2..]);
        assert value[1..] == s[k + 2..n];
        CollectEntries(s[n..], acc[key := value]);
    }
  }

  /** Text without a `%` records nothing. */
  lemma {:induction false} CollectNoPercent(s: string, acc: map<string, string>)
    requires '%' !in s
    ensures Collect(s, acc) == acc
    decreases |s|
  {
    if s != [] {
      CollectNoPercent(s[1..], acc);
    }
  }

  /** `key=%value` followed by the end or a non-word character is matched whole. */
  lemma AssignmentMatch(key: string, value: string, rest: string)
    requires IsWord(key) && IsWord(value)
    requires rest == [] || !IsWordChar(rest[0])
    ensures AssignmentAt(key + "=%" + value + rest) == Some((|key|, |key| + 2 + |value|))
  {
    var s := key + "=%" + value + rest;
    WordRunOf(key, "=%" + value + rest);
    assert s == key + ("=%" + value + rest);
    assert s[|key| + 2..] == value + rest;
    WordRunOf(value, rest);
  }

  lemma {:induction false} WordRunOf(w: string, rest: string)
    requires forall j :: 0 <= j < |w| ==> IsWordChar(w[j])
    requires rest == [] || !IsWordChar(rest[0])
    ensures WordRun(w + rest) == |w|
  {
    if w != [] {
      assert (w + rest)[1..] == w[1..] + rest;
      WordRunOf(w[1..], rest);
    } else {
      assert w + rest == rest;
    }
  }

  /** Matching `key=%value` at the start records it and continues after it. */
  lemma CollectAssignment(key: string, value: string, rest: string, acc: map<string, string>)
    requires IsWord(key) && IsWord(value)
    requires rest == [] || !IsWordChar(rest[0])
    ensures Collect(key + "=%" + value + rest, acc) == Collect(rest, acc[key := "%" + value])
  {
    var s := key + "=%" + value + rest;
    AssignmentMatch(key, value, rest);
    var n := |key| + 2 + |value|;
    assert s[..|key|] == key;
    assert s[|key| + 1..n] == "%" + value;
    assert s[n..] == rest;
  }

  /** The assignments of a line are recorded in order, so a later assignment of the same key
   *  wins: `k=%a k=%b` records `k -> '%b'`. */
  lemma LaterAssignmentWins(key: string, first: string, second: string)
    requires IsWord(key) && IsWord(first) && IsWord(second)
    ensures Collect(key + "=%" + first + " " + key + "=%" + second, map[]) == map[key := "%" + second]
  {
    var a2 := key + "=%" + second;
    assert key + "=%" + first + " " + key + "=%" + second == key + "=%" + first + (" " + a2);
    CollectAssignment(key, first, " " + a2, map[]);
    assert AssignmentAt(" " + a2).None?;
    assert (" " + a2)[1..] == a2;
    assert a2 == key + "=%" + second + [];
    CollectAssignment(key, second, [], map[key := "%" + first]);
    assert map[key := "%" + first][key := "%" + second] == map[key := "%" + second];
  }
}
