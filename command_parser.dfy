/** `extractCommand`: the tag parser. The content of the first `[...]` pair is cut into
 *  whitespace-separated tokens (quoted substrings stay inside one token); the first token is the
 *  command name and every `key=value` token becomes a property. */
module CommandParser {
  import opened Wrappers
  import opened JsString

  /** A parsed tag. `name` is `None` when the content has no token (`[ ]`), which the source
   *  reports as an `undefined` command. */
  datatype Command = Command(name: Option<string>, props: map<string, string>)

  // ---------------------------------------------------------------- /\[(.*?)\]/

  /** Position of the first `]` at or after `k`, provided no line terminator comes before it
   *  (the lazy `.*?` cannot cross one). */
  function CloseAt(line: string, k: nat): (r: Option<nat>)
    decreases |line| - k
    ensures r.Some? ==> k <= r.value < |line| && line[r.value] == ']'
    ensures r.Some? ==> forall j :: k <= j < r.value ==> line[j] != ']' && !IsLineTerminator(line[j])
  {
    if k >= |line| then None
    else if line[k] == ']' then Some(k)
    else if IsLineTerminator(line[k]) then None
    else CloseAt(line, k + 1)
  }

  /** The capture of `/\[(.*?)\]/.exec(line)` searching from `p`: the leftmost `[` that has a
   *  reachable `]`, and the text between them. */
  function BracketContentFrom(line: string, p: nat): Option<string>
    decreases |line| - p
  {
    if p >= |line| then None
    else if line[p] == '[' && CloseAt(line, p + 1).Some? then Some(line[p + 1..CloseAt(line, p + 1).value])
    else BracketContentFrom(line, p + 1)
  }

  function BracketContent(line: string): Option<string> {
    BracketContentFrom(line, 0)
  }

  // ---------------------------------------------------------------- /(?:[^\s"']|"[^"]*"|'[^']*')+/g

  predicate IsQuote(c: char) { c == '"' || c == '\'' }

  /** Length of the one regex unit at the start of `s`: a plain character, or a complete quoted
   *  substring. A whitespace character or an unclosed quote is no unit. */
  function UnitLength(s: string): (r: Option<nat>)
    ensures r.Some? ==> 0 < r.value <= |s|
  {
    if s == [] || IsWhitespace(s[0]) then None
    else if IsQuote(s[0]) then
      var close := IndexOfChar(s, s[0], 1);
      if close == -1 then None else Some(close + 1)
    else Some(1)
  }

  /** Length of the greedy run of units at the start of `s`. */
  function TokenLength(s: string): (n: nat)
    requires UnitLength(s).Some?
    ensures 0 < n <= |s|
    decreases |s|
  {
    var u := UnitLength(s).value;
    if UnitLength(s[u..]).Some? then u + TokenLength(s[u..]) else u
  }

  /** The successive matches of the token regex. */
  function Tokens(s: string): seq<string>
    decreases |s|
  {
    if s == [] then []
    else if UnitLength(s).None? then Tokens(s[1..])
    else
      var n := TokenLength(s);
      [s[..n]] + Tokens(s[n..])
  }

  // ---------------------------------------------------------------- properties

  /** `value.replace(/(^['"])|(['"]$)/g, '')`: one leading and one trailing quote removed. */
  function StripQuotes(v: string): (r: string)
    ensures |r| <= |v|
  {
    var a := if |v| > 0 && IsQuote(v[0]) then 1 else 0;
    var b := if |v| > a && IsQuote(v[|v| - 1]) then |v| - 1 else |v|;
    v[a..b]
  }

  /** `token.match(/^([^=]+)=(.+)$/)`: a key of at least one character before the first `=`, and
   *  a non-empty value without line terminators after it; key and value are trimmed and the
   *  value loses its surrounding quotes. */
  function ParseProp(token: string): Option<(string, string)>
  {
    var eq := IndexOfChar(token, '=', 0);
    if eq <= 0 then None
    else
      var raw := token[eq + 1..];
      if raw == [] || exists j :: 0 <= j < |raw| && IsLineTerminator(raw[j]) then None
      else Some((Trim(token[..eq]), StripQuotes(Trim(raw))))
  }

  /** One step of the `reduce`: a property token writes its key, any other token is dropped. */
  function AddProp(acc: map<string, string>, token: string): map<string, string> {
    match ParseProp(token)
    case None => acc
    case Some((k, v)) => acc[k := v]
  }

  function FoldProps(tokens: seq<string>, acc: map<string, string>): map<string, string>
    decreases |tokens|
  {
    if tokens == [] then acc else FoldProps(tokens[1..], AddProp(acc, tokens[0]))
  }

  /** `extractCommand`. */
  function ExtractCommand(line: string): (r: Result<Command>)
    ensures r.Err? ==> r.error == "Invalid command line: " + line
  {
    match BracketContent(line)
    case None => Err("Invalid command line: " + line)
    case Some(content) =>
      if content == [] then Err("Invalid command line: " + line)
      else
        var tokens := TrimAll(Tokens(content));
        if tokens == [] then Ok(Command(None, map[]))
        else Ok(Command(Some(tokens[0]), FoldProps(tokens[1..], map[])))
  }

  // ---------------------------------------------------------------- lemmas: brackets

  /** Text before the first `[` is skipped, and the lazy match stops at the first `]`. */
  lemma {:induction false} BracketContentOfTag(pre: string, content: string, post: string)
    requires '[' !in pre && ']' !in content
    requires forall j :: 0 <= j < |content| ==> !IsLineTerminator(content[j])
    ensures BracketContent(pre + "[" + content + "]" + post) == Some(content)
  {
    var line := pre + "[" + content + "]" + post;
    BracketContentSkip(line, 0, |pre|);
    assert line[|pre|] == '[';
    var k := |pre| + 1;
    assert forall j :: 0 <= j < |content| ==> line[k + j] == content[j];
    CloseAtRun(line, k, |content|);
    assert line[k + |content|] == ']';
    assert line[k..k + |content|] == content;
  }

  lemma {:induction false} CloseAtRun(line: string, k: nat, n: nat)
    requires k + n < |line| && line[k + n] == ']'
    requires forall j :: k <= j < k + n ==> line[j] != ']' && !IsLineTerminator(line[j])
    ensures CloseAt(line, k) == Some(k + n)
    decreases n
  {
    if n > 0 {
      CloseAtRun(line, k + 1, n - 1);
    }
  }

  lemma {:induction false} BracketContentSkip(line: string, p: nat, q: nat)
    requires p <= q <= |line|
    requires forall j :: p <= j < q ==> line[j] != '['
    ensures BracketContentFrom(line, p) == BracketContentFrom(line, q)
    decreases q - p
  {
    if p < q {
      BracketContentSkip(line, p + 1, q);
    }
  }

  /** Only the content of the first bracket pair is parsed; text around it is ignored. */
  lemma OnlyFirstTagCounts(pre: string, content: string, post: string)
    requires '[' !in pre && ']' !in content
    requires forall j :: 0 <= j < |content| ==> !IsLineTerminator(content[j])
    ensures ExtractCommand(pre + "[" + content + "]" + post).Ok? <==> content != []
    ensures content != [] ==>
      ExtractCommand(pre + "[" + content + "]" + post) == ExtractCommand("[" + content + "]")
  {
    BracketContentOfTag(pre, content, post);
    BracketContentOfTag([], content, []);
    assert [] + "[" + content + "]" + [] == "[" + content + "]";
  }

  /** A line without `[` is rejected. */
  lemma NoBracketRejected(line: string)
    requires '[' !in line
    ensures ExtractCommand(line).Err?
  {
    BracketContentSkip(line, 0, |line|);
  }

  /** An empty tag `[]` is rejected, whatever follows it. */
  lemma EmptyTagRejected(post: string)
    ensures ExtractCommand("[]" + post).Err?
  {
    BracketContentOfTag([], [], post);
    assert [] + "[" + [] + "]" + post == "[]" + post;
  }

  // ---------------------------------------------------------------- lemmas: tokens

  /** A plain word: no whitespace and no quote characters. */
  predicate IsPlain(w: string) {
    forall j :: 0 <= j < |w| ==> !IsWhitespace(w[j]) && !IsQuote(w[j])
  }

  /** Whitespace before a token is skipped. */
  lemma {:induction false} TokensSkipWhitespace(ws: string, rest: string)
    requires AllWhitespace(ws)
    ensures Tokens(ws + rest) == Tokens(rest)
  {
    if ws != [] {
      assert (ws + rest)[1..] == ws[1..] + rest;
      TokensSkipWhitespace(ws[1..], rest);
    } else {
      assert ws + rest == rest;
    }
  }

  lemma {:induction false} PlainTokenLength(w: string, rest: string)
    requires w != [] && IsPlain(w)
    requires rest == [] || IsWhitespace(rest[0])
    ensures TokenLength(w + rest) == |w|
  {
    var s := w + rest;
    assert s[0] == w[0];
    assert UnitLength(s) == Some(1);
    assert s[1..] == w[1..] + rest;
    if |w| > 1 {
      PlainTokenLength(w[1..], rest);
    }
  }

  /** A plain word followed by whitespace or the end is one token. */
  lemma PlainToken(w: string, rest: string)
    requires w != [] && IsPlain(w)
    requires rest == [] || IsWhitespace(rest[0])
    ensures Tokens(w + rest) == [w] + Tokens(rest)
  {
    PlainTokenLength(w, rest);
    var s := w + rest;
    assert s[0] == w[0];
    assert s[..|w|] == w && s[|w|..] == rest;
  }

  /** A quoted substring keeps its whitespace inside one token: `key="a b"` is one token. */
  lemma QuotedToken(key: string, quoted: string, rest: string)
    requires key != [] && IsPlain(key)
    requires '"' !in quoted
    requires rest == [] || IsWhitespace(rest[0])
    ensures Tokens(key + "=\"" + quoted + "\"" + rest) == [key + "=\"" + quoted + "\""] + Tokens(rest)
  {
    var tok := key + "=\"" + quoted + "\"";
    var s := tok + rest;
    assert s == key + ("=\"" + quoted + "\"" + rest);
    QuotedTokenLength(key, quoted, rest);
    assert s[0] == key[0];
    assert s[..|tok|] == tok && s[|tok|..] == rest;
  }

  lemma {:induction false} QuotedTokenLength(key: string, quoted: string, rest: string)
    requires IsPlain(key) && '"' !in quoted
    requires rest == [] || IsWhitespace(rest[0])
    ensures UnitLength(key + "=\"" + quoted + "\"" + rest).Some?
    ensures TokenLength(key + "=\"" + quoted + "\"" + rest) == |key| + |quoted| + 3
  {
    var s := key + "=\"" + quoted + "\"" + rest;
    if key != [] {
      assert s[0] == key[0];
      assert s[1..] == key[1..] + "=\"" + quoted + "\"" + rest;
      QuotedTokenLength(key[1..], quoted, rest);
    } else {
      assert s == "=" + ("\"" + quoted + "\"" + rest);
      var q := s[1..];
      assert q == "\"" + quoted + "\"" + rest;
      assert forall j :: 1 <= j <= |quoted| ==> q[j] == quoted[j - 1];
      assert q[|quoted| + 1] == '"';
      assert q[|quoted| + 2..] == rest;
      QuoteUnit(q, |quoted|);
    }
  }

  /** A quoted unit of `n` inner characters, followed by whitespace or the end, is a token of
   *  length `n + 2`. */
  lemma QuoteUnit(q: string, n: nat)
    requires n + 2 <= |q| && q[0] == '"' && q[n + 1] == '"'
    requires forall j :: 1 <= j <= n ==> q[j] != '"'
    requires n + 2 == |q| || IsWhitespace(q[n + 2])
    ensures UnitLength(q) == Some(n + 2)
    ensures TokenLength(q) == n + 2
  {
    IndexOfCharFirst(q, '"', 1, n + 1);
    assert UnitLength(q) == Some(n + 2);
    assert UnitLength(q[n + 2..]).None?;
  }

  /** `[name]` is the command `name` with no properties. */
  lemma BareCommand(name: string)
    requires name != [] && IsPlain(name) && ']' !in name
    requires forall j :: 0 <= j < |name| ==> !IsLineTerminator(name[j])
    ensures ExtractCommand("[" + name + "]") == Ok(Command(Some(name), map[]))
  {
    BracketContentOfTag([], name, []);
    assert [] + "[" + name + "]" + [] == "[" + name + "]";
    PlainToken(name, []);
    assert name + [] == name;
    assert Tokens([]) == [];
    TrimPlain(name);
  }

  lemma TrimPlain(w: string)
    requires w != [] && IsPlain(w)
    ensures Trim(w) == w
  {
    TrimNoEdgeWhitespace(w);
  }

  /** `[ ]`: content made only of spaces gives no token, so the command is undefined. */
  lemma WhitespaceContentUndefined(content: string)
    requires content != [] && AllWhitespace(content) && ']' !in content
    requires forall j :: 0 <= j < |content| ==> !IsLineTerminator(content[j])
    ensures ExtractCommand("[" + content + "]") == Ok(Command(None, map[]))
  {
    BracketContentOfTag([], content, []);
    assert [] + "[" + content + "]" + [] == "[" + content + "]";
    TokensSkipWhitespace(content, []);
    assert content + [] == content;
  }

  /** `[name key=value]` with plain parts gives exactly that property. */
  lemma CommandWithProp(name: string, key: string, value: string)
    requires name != [] && IsPlain(name) && ']' !in name
    requires key != [] && IsPlain(key) && '=' !in key && ']' !in key
    requires value != [] && IsPlain(value) && ']' !in value
    ensures ExtractCommand("[" + name + " " + key + "=" + value + "]")
      == Ok(Command(Some(name), map[key := value]))
  {
    var tok := key + "=" + value;
    var content := name + " " + tok;
    var line := "[" + name + " " + key + "=" + value + "]";
    assert line == [] + "[" + content + "]" + [];
    PlainJoin(key, "=", value);
    PlainJoin(name, " ", tok);
    BracketContentOfTag([], content, []);
    assert BracketContent(line) == Some(content);
    TwoTokens(name, tok);
    PlainProp(key, value);
    FoldOne(tok, key, value);
    var tokens := TrimAll(Tokens(content));
    assert tokens == [name, tok] && tokens[1..] == [tok];
  }

  /** A single property token folds into the one-entry map. */
  lemma FoldOne(tok: string, key: string, value: string)
    requires ParseProp(tok) == Some((key, value))
    ensures FoldProps([tok], map[]) == map[key := value]
  {
    assert [tok][1..] == [];
  }

  /** Two parts joined by a plain separator: the pieces' characters are the only characters. */
  lemma PlainJoin(a: string, sep: string, b: string)
    requires |sep| == 1
    ensures forall c :: c in a + sep + b <==> c in a || c == sep[0] || c in b
    ensures sep[0] != ' ' && IsPlain(a) && IsPlain(sep) && IsPlain(b) ==> IsPlain(a + sep + b)
    ensures (forall j :: 0 <= j < |a| ==> !IsLineTerminator(a[j])) && !IsLineTerminator(sep[0])
      && (forall j :: 0 <= j < |b| ==> !IsLineTerminator(b[j]))
      ==> forall j :: 0 <= j < |a + sep + b| ==> !IsLineTerminator((a + sep + b)[j])
  {
    var s := a + sep + b;
    assert forall j :: 0 <= j < |s| ==> s[j] == (if j < |a| then a[j] else if j == |a| then sep[0] else b[j - |a| - 1]);
  }

  lemma TwoTokens(name: string, tok: string)
    requires name != [] && IsPlain(name) && tok != [] && IsPlain(tok)
    ensures TrimAll(Tokens(name + " " + tok)) == [name, tok]
  {
    PlainToken(name, " " + tok);
    assert name + " " + tok == name + (" " + tok);
    TokensSkipWhitespace(" ", tok);
    PlainToken(tok, []);
    assert tok + [] == tok;
    assert Tokens(name + " " + tok) == [name, tok];
    TrimPlain(name);
    TrimPlain(tok);
    TrimAllAt([name, tok], 0);
    TrimAllAt([name, tok], 1);
  }

  /** A `key=value` token with plain parts parses to that pair. */
  lemma PlainProp(key: string, value: string)
    requires key != [] && IsPlain(key) && '=' !in key
    requires value != [] && IsPlain(value)
    ensures ParseProp(key + "=" + value) == Some((key, value))
  {
    var tok := key + "=" + value;
    assert IndexOfChar(tok, '=', 0) == |key| by {
      assert forall j :: 0 <= j < |key| ==> tok[j] == key[j] && key[j] != '=';
      IndexOfCharFirst(tok, '=', 0, |key|);
    }
    assert tok[..|key|] == key && tok[|key| + 1..] == value;
    assert forall j :: 0 <= j < |value| ==> !IsLineTerminator(value[j]) by {
      assert forall j :: 0 <= j < |value| ==> !IsWhitespace(value[j]);
    }
    TrimPlain(key);
    TrimPlain(value);
    assert !IsQuote(value[0]) && !IsQuote(value[|value| - 1]);
    assert StripQuotes(value) == value;
  }

  /** A quoted value keeps its inner text, spaces included, without the quotes. */
  lemma QuotedProp(key: string, quoted: string)
    requires key != [] && IsPlain(key) && '=' !in key
    requires '"' !in quoted
    requires forall j :: 0 <= j < |quoted| ==> !IsLineTerminator(quoted[j])
    ensures ParseProp(key + "=\"" + quoted + "\"") == Some((key, quoted))
  {
    var tok := key + "=\"" + quoted + "\"";
    assert IndexOfChar(tok, '=', 0) == |key| by {
      assert forall j :: 0 <= j < |key| ==> tok[j] == key[j] && key[j] != '=';
      assert tok[|key|] == '=';
      IndexOfCharFirst(tok, '=', 0, |key|);
    }
    var raw := tok[|key| + 1..];
    assert tok[..|key|] == key && raw == "\"" + quoted + "\"";
    assert forall j :: 0 <= j < |raw| ==> raw[j] == '"' || raw[j] == quoted[j - 1];
    TrimPlain(key);
    TrimNoEdgeWhitespace(raw);
    assert raw[1..|raw| - 1] == quoted;
  }

  // ---------------------------------------------------------------- lemmas: the property fold

  lemma {:induction false} FoldPropsSnoc(tokens: seq<string>, t: string, acc: map<string, string>)
    ensures FoldProps(tokens + [t], acc) == AddProp(FoldProps(tokens, acc), t)
    decreases |tokens|
  {
    if tokens != [] {
      assert (tokens + [t])[1..] == tokens[1..] + [t];
      FoldPropsSnoc(tokens[1..], t, AddProp(acc, tokens[0]));
    } else {
      assert tokens + [t] == [t];
    }
  }

  /** A later property token overwrites any earlier value of its key; a token that is not a
   *  property leaves the map unchanged. */
  lemma LaterPropWins(tokens: seq<string>, t: string, acc: map<string, string>)
    ensures ParseProp(t).Some? ==>
      var (k, v) := ParseProp(t).value;
      FoldProps(tokens + [t], acc) == FoldProps(tokens, acc)[k := v]
    ensures ParseProp(t).None? ==> FoldProps(tokens + [t], acc) == FoldProps(tokens, acc)
  {
    FoldPropsSnoc(tokens, t, acc);
  }

  /** Every key of the result comes from the start map or from a property token. */
  lemma {:induction false} FoldPropsKeys(tokens: seq<string>, acc: map<string, string>, k: string)
    requires k in FoldProps(tokens, acc)
    ensures k in acc || exists i :: 0 <= i < |tokens| && ParseProp(tokens[i]).Some? && ParseProp(tokens[i]).value.0 == k
    decreases |tokens|
  {
    if tokens != [] {
      FoldPropsKeys(tokens[1..], AddProp(acc, tokens[0]), k);
      if k !in acc && k in AddProp(acc, tokens[0]) {
        assert ParseProp(tokens[0]).Some? && ParseProp(tokens[0]).value.0 == k;
      } else if k !in AddProp(acc, tokens[0]) {
        var i :| 0 <= i < |tokens[1..]| && ParseProp(tokens[1..][i]).Some? && ParseProp(tokens[1..][i]).value.0 == k;
        assert tokens[i + 1] == tokens[1..][i];
      }
    }
  }
}
