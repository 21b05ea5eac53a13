/** The script pre-processor of `[iscript]` blocks: the word `void` becomes `undefined`, and
 *  backslashes are left as they are. */
module IScript {
  import opened JsString

  /** `\bvoid\b` matches at the front of `s`, given whether the character before it is a word
   *  character. */
  predicate VoidAt(s: string, afterWord: bool) {
    !afterWord && |s| >= 4 && s[..4] == "void" && (|s| == 4 || !IsWordChar(s[4]))
  }

  /** The global replace, scanning left to right and resuming after each replacement. */
  function ConvertVoid(s: string, afterWord: bool): string
    decreases |s|
  {
    if s == [] then []
    else if VoidAt(s, afterWord) then "undefined" + ConvertVoid(s[4..], true)
    else [s[0]] + ConvertVoid(s[1..], IsWordChar(s[0]))
  }

  /** `convertVoidToUndefined`. */
  function ConvertVoidToUndefined(text: string): string {
    ConvertVoid(text, false)
  }

  /** `escapeBackslashes`: the identity. */
  function EscapeBackslashes(text: string): string {
    text
  }

  /** `parse`: the composition of the two rewrites. */
  function Parse(script: string): string {
    EscapeBackslashes(ConvertVoidToUndefined(script))
  }

  /** No standalone `void` anywhere in `t`. */
  predicate Clean(t: string, afterWord: bool)
    decreases |t|
  {
    t == [] || (!VoidAt(t, afterWord) && Clean(t[1..], IsWordChar(t[0])))
  }

  /** Text without a standalone `void` is left unchanged. */
  lemma {:induction false} CleanUnchanged(t: string, afterWord: bool)
    requires Clean(t, afterWord)
    ensures ConvertVoid(t, afterWord) == t
    decreases |t|
  {
    if t != [] {
      CleanUnchanged(t[1..], IsWordChar(t[0]));
    }
  }

  /** Text in which `void` does not occur at all is returned unchanged. */
  lemma {:induction false} NoVoidUnchanged(t: string, afterWord: bool)
    requires forall k :: 0 <= k ==> !OccursAt(t, "void", k)
    ensures ConvertVoid(t, afterWord) == t
    decreases |t|
  {
    if t != [] {
      assert !VoidAt(t, afterWord) by { assert !OccursAt(t, "void", 0); }
      forall k | 0 <= k ensures !OccursAt(t[1..], "void", k) {
        assert !OccursAt(t, "void", k + 1);
      }
      NoVoidUnchanged(t[1..], IsWordChar(t[0]));
    }
  }

  /** A run of word characters without `v`, followed by clean text, is clean. */
  lemma {:induction false} CleanWordPrefix(w: string, x: string, afterWord: bool)
    requires w != [] && 'v' !in w && forall i :: 0 <= i < |w| ==> IsWordChar(w[i])
    requires Clean(x, true)
    ensures Clean(w + x, afterWord)
    decreases |w|
  {
    assert (w + x)[0] == w[0];
    assert (w + x)[1..] == w[1..] + x;
    if |w| > 1 {
      CleanWordPrefix(w[1..], x, true);
    }
  }

  /** After a word character the scan copies the next character. */
  lemma CopiesAfterWord(t: string)
    requires t != []
    ensures ConvertVoid(t, true) == [t[0]] + ConvertVoid(t[1..], IsWordChar(t[0]))
  {
  }

  /** The output of the rewrite contains no standalone `void`. */
  lemma {:induction false} ConvertedIsClean(s: string, afterWord: bool)
    ensures Clean(ConvertVoid(s, afterWord), afterWord)
    decreases |s|
  {
    if s == [] {
    } else if VoidAt(s, afterWord) {
      ConvertedIsClean(s[4..], true);
      var u := "undefined";
      assert forall i :: 0 <= i < |u| ==> IsWordChar(u[i]) && u[i] != 'v';
      CleanWordPrefix(u, ConvertVoid(s[4..], true), afterWord);
    } else {
      var y := ConvertVoid(s[1..], IsWordChar(s[0]));
      ConvertedIsClean(s[1..], IsWordChar(s[0]));
      var out := [s[0]] + y;
      assert out[1..] == y;
      if !afterWord && s[0] == 'v' && |out| >= 4 {
        NotVoidAfterV(s, y);
      }
    }
  }

  /** The case of a `v` that did not start a standalone `void`: the copy does not either. */
  lemma NotVoidAfterV(s: string, y: string)
    requires |s| >= 1 && s[0] == 'v' && !VoidAt(s, false)
    requires y == ConvertVoid(s[1..], true)
    ensures !VoidAt([s[0]] + y, false)
  {
    var out := [s[0]] + y;
    if |s| < 4 {
      forall k | 0 <= k ensures !OccursAt(s[1..], "void", k) { }
      NoVoidUnchanged(s[1..], true);
      assert out == s;
    } else {
      CopiesAfterWord(s[1..]);
      assert s[1..][1..] == s[2..];
      assert out[1] == s[1];
      if s[1] == 'o' {
        CopiesAfterWord(s[2..]);
        assert s[2..][1..] == s[3..];
        assert out[2] == s[2];
        if s[2] == 'i' {
          CopiesAfterWord(s[3..]);
          assert s[3..][1..] == s[4..];
          assert out[3] == s[3];
          if s[3] == 'd' {
            assert s[..4] == "void";
            assert |s| > 4 && IsWordChar(s[4]);
            CopiesAfterWord(s[4..]);
            assert out[4] == s[4];
          }
        }
      }
    }
  }

  /** Parsing twice is parsing once. */
  lemma ParseIdempotent(script: string)
    ensures Parse(Parse(script)) == Parse(script)
  {
    ConvertedIsClean(script, false);
    CleanUnchanged(ConvertVoid(script, false), false);
  }

  /** A standalone `void` is replaced, one inside a longer identifier is kept. */
  lemma VoidExamples()
    ensures ConvertVoidToUndefined("void") == "undefined"
    ensures ConvertVoidToUndefined("avoid") == "avoid"
  {
    assert "void"[..4] == "void";
    assert ConvertVoid("void"[4..], true) == [];
    assert Clean("avoid", false) by {
      assert "avoid"[1..] == "void";
      assert "void"[1..] == "oid" && "oid"[1..] == "id" && "id"[1..] == "d" && "d"[1..] == [];
    }
    CleanUnchanged("avoid", false);
  }
}
