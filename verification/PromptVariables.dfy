/** Matching prompt variables against a prompt template, on the strings themselves: unused variables
    are deleted and placeholders without a variable are cut out of the template text.  Literal braces are
    doubled in a template, so cutting can go wrong where a literal spells a placeholder. */
module PromptVariables {
  import opened Prelude

  type Env = map<string, string>

  datatype Token = Char(c: char) | Var(name: string)

  /** A placeholder name: no braces, no conversion, format or lookup syntax. */
  predicate IsName(s: string) {
    s != "" && forall c :: c in s ==> c !in "{}!:.["
  }

  function Braced(name: string): string { "{" + name + "}" }

  /** Literal braces are doubled. */
  function TokenText(t: Token): string {
    match t
    case Char(c) => if c == '{' || c == '}' then [c, c] else [c]
    case Var(name) => Braced(name)
  }

  function Source(ts: seq<Token>): string {
    if ts == [] then "" else TokenText(ts[0]) + Source(ts[1..])
  }

  // ---------- the template formatter ----------

  /** The position of the first closing brace. */
  function Close(s: string): (j: nat)
    ensures j <= |s| && (j < |s| ==> s[j] == '}') && forall i :: 0 <= i < j ==> s[i] != '}'
  {
    if s == "" || s[0] == '}' then 0 else Close(s[1..]) + 1
  }

  function Cons(t: Token, ts: Option<seq<Token>>): Option<seq<Token>> {
    match ts case Some(us) => Some([t] + us) case None => None
  }

  /** Reads a template one literal character or placeholder at a time; doubled braces are literal. */
  function Parse(s: string): Option<seq<Token>>
    decreases |s|
  {
    if s == "" then Some([])
    else if s[0] == '{' then
      if |s| > 1 && s[1] == '{' then Cons(Char('{'), Parse(s[2..]))
      else
        var j := Close(s);
        if j < |s| then Cons(Var(s[1..j]), Parse(s[j + 1..])) else None
    else if s[0] == '}' then
      if |s| > 1 && s[1] == '}' then Cons(Char('}'), Parse(s[2..])) else None
    else Cons(Char(s[0]), Parse(s[1..]))
  }

  function Names(ts: seq<Token>): set<string> {
    set i | 0 <= i < |ts| && ts[i].Var? :: ts[i].name
  }

  function Prefixed(s: string, t: Option<string>): Option<string> {
    match t case Some(u) => Some(s + u) case None => None
  }

  /** Formatting fails if a placeholder has no variable. */
  function Render(ts: seq<Token>, env: Env): Option<string> {
    if ts == [] then Some("")
    else
      match ts[0]
      case Char(c) => Prefixed([c], Render(ts[1..], env))
      case Var(name) => if name in env then Prefixed(env[name], Render(ts[1..], env)) else None
  }

  /** Every placeholder has a proper name; `Tame` also allows the empty one. */
  ghost predicate WellNamed(ts: seq<Token>) {
    forall i :: 0 <= i < |ts| && ts[i].Var? ==> IsName(ts[i].name)
  }

  ghost predicate Tame(ts: seq<Token>) {
    forall i :: 0 <= i < |ts| && ts[i].Var? ==> IsName(ts[i].name) || ts[i].name == ""
  }

  lemma SplitVar(s: string, j: nat)
    requires 0 < j < |s| && s[0] == '{' && s[j] == '}'
    ensures Braced(s[1..j]) + s[j + 1..] == s
  {
    var t := Braced(s[1..j]) + s[j + 1..];
    assert |t| == |s|;
    assert forall i :: 0 <= i < |s| ==> t[i] == s[i];
  }

  lemma SplitChar(s: string, n: nat)
    requires 0 < n <= |s| && s[..n] == TokenText(Char(s[0]))
    ensures TokenText(Char(s[0])) + s[n..] == s
  {
  }

  lemma ConsSource(t: Token, rest: Option<seq<Token>>)
    requires rest.Some?
    ensures Cons(t, rest).Some? && Source(Cons(t, rest).value) == TokenText(t) + Source(rest.value)
  {
    SourceCons(t, rest.value);
  }

  /** Every template that parses is the text of its tokens. */
  lemma {:induction false} SourceParse(s: string)
    requires Parse(s).Some?
    ensures Source(Parse(s).value) == s
    decreases |s|
  {
    if s == "" {
    } else if s[0] == '{' && !(|s| > 1 && s[1] == '{') {
      var j := Close(s);
      var rest := Parse(s[j + 1..]);
      assert Parse(s) == Cons(Var(s[1..j]), rest);
      SplitVar(s, j);
      SourceParse(s[j + 1..]);
      ConsSource(Var(s[1..j]), rest);
    } else {
      var n := if s[0] == '{' || s[0] == '}' then 2 else 1;
      var rest := Parse(s[n..]);
      assert Parse(s) == Cons(Char(s[0]), rest);
      SplitChar(s, n);
      SourceParse(s[n..]);
      ConsSource(Char(s[0]), rest);
    }
  }

  lemma {:induction false} CloseAt(s: string, j: nat)
    requires j < |s| && s[j] == '}' && forall i :: 0 <= i < j ==> s[i] != '}'
    ensures Close(s) == j
  {
  }

  lemma ParseVar(name: string, rest: string)
    requires IsName(name) || name == ""
    ensures Parse(Braced(name) + rest) == Cons(Var(name), Parse(rest))
  {
    var s := Braced(name) + rest;
    assert s[0] == '{' && s[|name| + 1] == '}';
    assert forall i :: 1 <= i <= |name| ==> s[i] == name[i - 1] && name[i - 1] in name;
    CloseAt(s, |name| + 1);
    assert s[1..|name| + 1] == name && s[|name| + 2..] == rest;
  }

  lemma ParseChar(c: char, rest: string)
    ensures Parse(TokenText(Char(c)) + rest) == Cons(Char(c), Parse(rest))
  {
    var s := TokenText(Char(c)) + rest;
    if c == '{' || c == '}' { assert s[2..] == rest; } else { assert s[1..] == rest; }
  }

  /** Conversely the formatter reads back exactly the tokens. */
  lemma {:induction false} ParseSource(ts: seq<Token>)
    requires Tame(ts)
    ensures Parse(Source(ts)) == Some(ts)
  {
    if ts != [] {
      ParseSource(ts[1..]);
      assert ts == [ts[0]] + ts[1..];
      match ts[0]
      case Char(c) => ParseChar(c, Source(ts[1..]));
      case Var(name) => ParseVar(name, Source(ts[1..]));
    }
  }

  // ---------- str.replace ----------

  /** Cuts out the occurrences of a nonempty pattern, scanning from the left. */
  function Cut(s: string, pattern: string): string
    requires pattern != ""
    decreases |s|
  {
    if s == "" then ""
    else if pattern <= s then Cut(s[|pattern|..], pattern)
    else [s[0]] + Cut(s[1..], pattern)
  }

  /** The template text after the missing names were cut out in that order. */
  function Cuts(text: string, order: seq<string>): string {
    if order == [] then text else Cut(Cuts(text, order[..|order| - 1]), Braced(order[|order| - 1]))
  }

  // ---------- what cutting does to the tokens ----------

  function Chars(text: string): seq<Token> {
    seq(|text|, i requires 0 <= i < |text| => Char(text[i]))
  }

  /** The tokens without the placeholders of the given names. */
  function Without(ts: seq<Token>, names: set<string>): seq<Token> {
    if ts == [] then []
    else if ts[0].Var? && ts[0].name in names then Without(ts[1..], names)
    else [ts[0]] + Without(ts[1..], names)
  }

  /** A literal spells the placeholder; placeholders in between keep literals apart. */
  ghost predicate Spells(ts: seq<Token>, m: string) {
    exists i :: 0 <= i <= |ts| && Chars(Braced(m)) <= ts[i..]
  }

  /** Cutting one name removes its placeholders, and turns a literal that spells it into a placeholder
      with an empty name: one brace of each pair is left. */
  function CutTokens(ts: seq<Token>, m: string): seq<Token>
    decreases |ts|
  {
    if ts == [] then []
    else if ts[0] == Var(m) then CutTokens(ts[1..], m)
    else if Chars(Braced(m)) <= ts then [Var("")] + CutTokens(ts[|m| + 2..], m)
    else [ts[0]] + CutTokens(ts[1..], m)
  }

  function CutAll(ts: seq<Token>, order: seq<string>): seq<Token> {
    if order == [] then ts else CutTokens(CutAll(ts, order[..|order| - 1]), order[|order| - 1])
  }

  lemma {:induction false} CutPlain(text: string, rest: string, m: string)
    requires '{' !in text
    ensures Cut(text + rest, Braced(m)) == text + Cut(rest, Braced(m))
  {
    if text == "" {
      assert text + rest == rest;
    } else {
      var s := text + rest;
      assert s[1..] == text[1..] + rest && s[0] != Braced(m)[0];
      CutPlain(text[1..], rest, m);
    }
  }

  lemma StartsWithBraced(name: string, rest: string, m: string)
    requires (IsName(name) || name == "") && IsName(m)
    ensures Braced(m) <= Braced(name) + rest <==> m == name
  {
    var s := Braced(name) + rest;
    assert forall i :: 0 <= i < |name| ==> s[i + 1] == name[i] && name[i] in name;
    assert forall i :: 0 <= i < |m| ==> Braced(m)[i + 1] == m[i] && m[i] in m;
    assert s[|name| + 1] == '}' && Braced(m)[|m| + 1] == '}';
    if Braced(m) <= s {
      assert forall i :: 0 <= i < |Braced(m)| ==> s[i] == Braced(m)[i];
      CloseAt(s, |name| + 1);
      CloseAt(s, |m| + 1);
      assert forall i :: 0 <= i < |m| ==> m[i] == name[i];
    }
  }

  lemma CutVar(name: string, rest: string, m: string)
    requires (IsName(name) || name == "") && IsName(m)
    ensures Cut(Braced(name) + rest, Braced(m)) == (if m == name then "" else Braced(name)) + Cut(rest, Braced(m))
  {
    var s := Braced(name) + rest;
    StartsWithBraced(name, rest, m);
    if m == name {
      assert s[|Braced(m)|..] == rest;
    } else {
      var body := name + "}";
      assert s[0] == '{' && s[1..] == body + rest;
      assert forall c :: c in body ==> c in name || c == '}';
      CutPlain(body, rest, m);
    }
  }

  lemma FirstChar(ts: seq<Token>)
    requires ts != []
    ensures Source(ts) != "" && Source(ts)[0] == if ts[0].Var? then '{' else ts[0].c
  {
  }

  lemma ClosingHead(ts: seq<Token>)
    ensures "}" <= Source(ts) <==> [Char('}')] <= ts
    ensures [Char('}')] <= ts ==> Source(ts)[1..] == "}" + Source(ts[1..])
  {
    if ts != [] { FirstChar(ts); }
  }

  lemma PlainHead(c: char, ts: seq<Token>, rest: string, word: seq<Token>)
    requires c != '{' && c != '}' && ts != []
    requires rest <= Source(ts[1..]) <==> word <= ts[1..]
    ensures [c] + rest <= Source(ts) <==> [Char(c)] + word <= ts
    ensures [Char(c)] + word <= ts ==> ts[0] == Char(c) && Source(ts) == [c] + Source(ts[1..])
  {
    FirstChar(ts);
    if ts[0] == Char(c) {
      assert Source(ts) == [c] + Source(ts[1..]);
      ConsPrefix(c, rest, Source(ts[1..]));
      ConsPrefix(ts[0], word, ts[1..]);
      assert ts == [ts[0]] + ts[1..];
    } else {
      assert ([c] + rest)[0] == c && ([Char(c)] + word)[0] == Char(c);
    }
  }

  lemma CharsCons(c: char, text: string)
    ensures Chars([c] + text) == [Char(c)] + Chars(text)
  {
  }

  /** A brace-free text and a closing brace start the source exactly if they start the literal. */
  lemma {:induction false} ClosingPrefix(text: string, ts: seq<Token>)
    requires '{' !in text && '}' !in text
    ensures text + "}" <= Source(ts) <==> Chars(text + "}") <= ts
    ensures Chars(text + "}") <= ts ==>
              |Source(ts)| > |text| && Source(ts)[|text| + 1..] == "}" + Source(ts[|text| + 1..])
  {
    if text == "" {
      assert text + "}" == "}" && Chars("}") == [Char('}')];
      ClosingHead(ts);
    } else if ts == [] {
      assert Source(ts) == "";
    } else {
      var c, rest := text[0], text[1..] + "}";
      assert c in text && text + "}" == [c] + rest;
      CharsCons(c, rest);
      ClosingPrefix(text[1..], ts[1..]);
      PlainHead(c, ts, rest, Chars(rest));
      if Chars(text + "}") <= ts { ClosingShift(c, ts, |text|); }
    }
  }

  lemma ClosingShift(c: char, ts: seq<Token>, n: nat)
    requires 0 < n < |ts| && Source(ts) == [c] + Source(ts[1..]) && |Source(ts[1..])| >= n
    requires Source(ts[1..])[n..] == "}" + Source(ts[1..][n..])
    ensures Source(ts)[n + 1..] == "}" + Source(ts[n + 1..])
  {
    assert ts[1..][n..] == ts[n + 1..];
    assert ([c] + Source(ts[1..]))[n + 1..] == Source(ts[1..])[n..];
  }

  lemma ConsPrefix<T>(x: T, a: seq<T>, b: seq<T>)
    ensures [x] + a <= [x] + b <==> a <= b
  {
    if [x] + a <= [x] + b { assert a == ([x] + a)[1..] && b == ([x] + b)[1..]; }
  }

  lemma CutFirstBrace(rest: string, m: string)
    requires IsName(m)
    ensures Cut("{{" + rest, Braced(m)) == "{" + Cut("{" + rest, Braced(m))
  {
    var s := "{{" + rest;
    assert m[0] in m && s[1] == '{' && Braced(m)[1] == m[0];
    assert s[1..] == "{" + rest;
  }

  lemma CutSecondBrace(rest: string, m: string)
    ensures m + "}" <= rest ==> Cut("{" + rest, Braced(m)) == Cut(rest[|m| + 1..], Braced(m))
    ensures !(m + "}" <= rest) ==> Cut("{" + rest, Braced(m)) == "{" + Cut(rest, Braced(m))
  {
    var s := "{" + rest;
    assert Braced(m) == "{" + (m + "}");
    ConsPrefix('{', m + "}", rest);
    assert s[1..] == rest;
    if m + "}" <= rest { assert s[|m| + 2..] == rest[|m| + 1..]; }
  }

  lemma SpelledHead(ts: seq<Token>, m: string)
    requires IsName(m) && ts != [] && ts[0] == Char('{')
    ensures Chars(Braced(m)) <= ts <==> m + "}" <= Source(ts[1..])
    ensures Chars(Braced(m)) <= ts ==>
              |Source(ts[1..])| > |m| && Source(ts[1..])[|m| + 1..] == "}" + Source(ts[|m| + 2..])
  {
    assert '{' !in m && '}' !in m;
    ClosingPrefix(m, ts[1..]);
    assert Braced(m) == ['{'] + (m + "}");
    CharsCons('{', m + "}");
    assert ts == [ts[0]] + ts[1..];
    ConsPrefix(ts[0], Chars(m + "}"), ts[1..]);
    if Chars(Braced(m)) <= ts { assert ts[1..][|m| + 1..] == ts[|m| + 2..]; }
  }

  lemma Brackets(x: string)
    ensures "{" + ("}" + x) == "{}" + x && "{" + ("{" + x) == "{{" + x
  {
  }

  /** The literal brace at the head: the second of its pair may open a spelled placeholder. */
  lemma CutBrace(ts: seq<Token>, m: string)
    requires IsName(m) && ts != [] && ts[0] == Char('{')
    ensures Cut(Source(ts), Braced(m)) ==
      if Chars(Braced(m)) <= ts then "{}" + Cut(Source(ts[|m| + 2..]), Braced(m))
      else "{{" + Cut(Source(ts[1..]), Braced(m))
  {
    var rest := Source(ts[1..]);
    assert Source(ts) == "{{" + rest;
    CutFirstBrace(rest, m);
    CutSecondBrace(rest, m);
    SpelledHead(ts, m);
    if Chars(Braced(m)) <= ts {
      var more := Source(ts[|m| + 2..]);
      CutPlain("}", more, m);
      Brackets(Cut(more, Braced(m)));
    } else {
      Brackets(Cut(rest, Braced(m)));
    }
  }

  lemma TailTame(ts: seq<Token>, n: nat)
    requires Tame(ts) && n <= |ts|
    ensures Tame(ts[n..])
  {
  }

  lemma NotSpelledHead(ts: seq<Token>, m: string)
    requires ts != [] && ts[0] != Char('{')
    ensures !(Chars(Braced(m)) <= ts)
  {
    assert Chars(Braced(m))[0] == Char('{');
  }

  lemma CutVarHead(ts: seq<Token>, m: string)
    requires Tame(ts) && IsName(m) && ts != [] && ts[0].Var?
    requires Cut(Source(ts[1..]), Braced(m)) == Source(CutTokens(ts[1..], m))
    ensures Cut(Source(ts), Braced(m)) == Source(CutTokens(ts, m))
  {
    NotSpelledHead(ts, m);
    SourceCons(ts[0], CutTokens(ts[1..], m));
    CutVar(ts[0].name, Source(ts[1..]), m);
  }

  lemma CutPlainHead(ts: seq<Token>, m: string)
    requires ts != [] && ts[0].Char? && ts[0].c != '{'
    requires Cut(Source(ts[1..]), Braced(m)) == Source(CutTokens(ts[1..], m))
    ensures Cut(Source(ts), Braced(m)) == Source(CutTokens(ts, m))
  {
    NotSpelledHead(ts, m);
    SourceCons(ts[0], CutTokens(ts[1..], m));
    assert '{' !in TokenText(ts[0]);
    CutPlain(TokenText(ts[0]), Source(ts[1..]), m);
  }

  lemma CutBraceHead(ts: seq<Token>, m: string)
    requires IsName(m) && ts != [] && ts[0] == Char('{')
    requires !(Chars(Braced(m)) <= ts) ==> Cut(Source(ts[1..]), Braced(m)) == Source(CutTokens(ts[1..], m))
    requires Chars(Braced(m)) <= ts ==> Cut(Source(ts[|m| + 2..]), Braced(m)) == Source(CutTokens(ts[|m| + 2..], m))
    ensures Cut(Source(ts), Braced(m)) == Source(CutTokens(ts, m))
  {
    CutBrace(ts, m);
    if Chars(Braced(m)) <= ts {
      SourceCons(Var(""), CutTokens(ts[|m| + 2..], m));
      assert TokenText(Var("")) == "{}";
    } else {
      SourceCons(ts[0], CutTokens(ts[1..], m));
    }
  }

  /** Replacing the text of one placeholder in the source is `CutTokens` on the tokens. */
  lemma {:induction false} CutSource(ts: seq<Token>, m: string)
    requires Tame(ts) && IsName(m)
    ensures Cut(Source(ts), Braced(m)) == Source(CutTokens(ts, m))
    decreases |ts|
  {
    if ts != [] {
      TailTame(ts, 1);
      CutSource(ts[1..], m);
      if Chars(Braced(m)) <= ts {
        TailTame(ts, |m| + 2);
        CutSource(ts[|m| + 2..], m);
      }
      if ts[0].Var? { CutVarHead(ts, m); }
      else if ts[0].c != '{' { CutPlainHead(ts, m); }
      else { CutBraceHead(ts, m); }
    }
  }

  lemma SourceCons(t: Token, ts: seq<Token>)
    ensures Source([t] + ts) == TokenText(t) + Source(ts)
  {
    assert ([t] + ts)[1..] == ts;
  }

  lemma {:induction false} CutTame(ts: seq<Token>, m: string)
    requires Tame(ts)
    ensures Tame(CutTokens(ts, m))
    decreases |ts|
  {
    if ts != [] {
      TailTame(ts, 1);
      CutTame(ts[1..], m);
      if Chars(Braced(m)) <= ts {
        TailTame(ts, |m| + 2);
        CutTame(ts[|m| + 2..], m);
      }
    }
  }

  lemma {:induction false} CutsAre(ts: seq<Token>, order: seq<string>)
    requires Tame(ts) && forall i :: 0 <= i < |order| ==> IsName(order[i])
    ensures Cuts(Source(ts), order) == Source(CutAll(ts, order)) && Tame(CutAll(ts, order))
  {
    if order != [] {
      var n := |order| - 1;
      CutsAre(ts, order[..n]);
      CutSource(CutAll(ts, order[..n]), order[n]);
      CutTame(CutAll(ts, order[..n]), order[n]);
    }
  }

  // ---------- clean and broken cuts ----------

  lemma SpellsTail(ts: seq<Token>, m: string)
    requires ts != [] && Spells(ts, m) && !(Chars(Braced(m)) <= ts)
    ensures Spells(ts[1..], m)
  {
    var i :| 0 <= i <= |ts| && Chars(Braced(m)) <= ts[i..];
    assert ts[0..] == ts;
    assert ts[1..][i - 1..] == ts[i..];
  }

  lemma SpellsMore(ts: seq<Token>, m: string)
    requires ts != [] && Spells(ts[1..], m)
    ensures Spells(ts, m)
  {
    var i :| 0 <= i <= |ts[1..]| && Chars(Braced(m)) <= ts[1..][i..];
    assert ts[1..][i..] == ts[i + 1..];
  }

  /** Where no literal spells the name, cutting removes its placeholders and nothing else. */
  lemma {:induction false} CleanCut(ts: seq<Token>, m: string)
    requires !Spells(ts, m)
    ensures CutTokens(ts, m) == Without(ts, {m})
  {
    if ts != [] {
      if Spells(ts[1..], m) { SpellsMore(ts, m); }
      CleanCut(ts[1..], m);
      assert ts[0..] == ts;
    }
  }

  /** Where one does, a placeholder with an empty name appears. */
  lemma {:induction false} BrokenCut(ts: seq<Token>, m: string)
    requires Spells(ts, m)
    ensures Var("") in CutTokens(ts, m)
  {
    assert |Chars(Braced(m))| > 0;
    if ts != [] && !(Chars(Braced(m)) <= ts) {
      SpellsTail(ts, m);
      BrokenCut(ts[1..], m);
    }
  }

  /** It is never removed again. */
  lemma {:induction false} BlankStays(ts: seq<Token>, m: string)
    requires Var("") in ts && m != ""
    ensures Var("") in CutTokens(ts, m)
    decreases |ts|
  {
    if Chars(Braced(m)) <= ts {
    } else {
      assert ts == [ts[0]] + ts[1..];
      if Var("") in ts[1..] { BlankStays(ts[1..], m); }
    }
  }

  /** No cut of that order meets a literal that spells its name. */
  ghost predicate Clean(ts: seq<Token>, order: seq<string>) {
    order == [] ||
    var n := |order| - 1;
    Clean(ts, order[..n]) && !Spells(Without(ts, Elements(order[..n])), order[n])
  }

  lemma {:induction false} WithoutMore(ts: seq<Token>, names: set<string>, more: set<string>)
    ensures Without(Without(ts, names), more) == Without(ts, names + more)
  {
    if ts != [] {
      WithoutMore(ts[1..], names, more);
      var tail := Without(ts[1..], names);
      assert ([ts[0]] + tail)[1..] == tail;
    }
  }

  lemma {:induction false} WithoutNothing(ts: seq<Token>)
    ensures Without(ts, {}) == ts
  {
    if ts != [] { WithoutNothing(ts[1..]); }
  }

  lemma ElementsSnoc(order: seq<string>, n: nat)
    requires |order| == n + 1
    ensures Elements(order) == Elements(order[..n]) + {order[n]}
  {
    assert order == order[..n] + [order[n]];
  }

  lemma {:induction false} CleanCuts(ts: seq<Token>, order: seq<string>)
    requires Clean(ts, order)
    ensures CutAll(ts, order) == Without(ts, Elements(order))
  {
    if order == [] {
      WithoutNothing(ts);
      assert Elements(order) == {};
    } else {
      var n := |order| - 1;
      CleanCuts(ts, order[..n]);
      CleanCut(Without(ts, Elements(order[..n])), order[n]);
      WithoutMore(ts, Elements(order[..n]), {order[n]});
      ElementsSnoc(order, n);
    }
  }

  lemma {:induction false} BrokenCuts(ts: seq<Token>, order: seq<string>)
    requires !Clean(ts, order) && forall i :: 0 <= i < |order| ==> order[i] != ""
    ensures Var("") in CutAll(ts, order)
  {
    if order != [] {
      var n := |order| - 1;
      if Clean(ts, order[..n]) {
        CleanCuts(ts, order[..n]);
        BrokenCut(CutAll(ts, order[..n]), order[n]);
      } else {
        BrokenCuts(ts, order[..n]);
        BlankStays(CutAll(ts, order[..n]), order[n]);
      }
    }
  }

  lemma {:induction false} WithoutAppend(a: seq<Token>, b: seq<Token>, names: set<string>)
    ensures Without(a + b, names) == Without(a, names) + Without(b, names)
  {
    if a == [] {
      assert a + b == b;
    } else {
      assert (a + b)[1..] == a[1..] + b;
      WithoutAppend(a[1..], b, names);
    }
  }

  lemma {:induction false} WithoutLiteral(a: seq<Token>, names: set<string>)
    requires forall i :: 0 <= i < |a| ==> a[i].Char?
    ensures Without(a, names) == a
  {
    if a != [] { WithoutLiteral(a[1..], names); }
  }

  /** Removing placeholders joins literals, so it never takes a spelled name away. */
  lemma SpellsWithout(ts: seq<Token>, m: string, names: set<string>)
    requires Spells(ts, m)
    ensures Spells(Without(ts, names), m)
  {
    var word := Chars(Braced(m));
    var i :| 0 <= i <= |ts| && word <= ts[i..];
    var a, b := ts[..i], ts[i..][|word|..];
    assert ts == a + (word + b);
    WithoutAppend(a, word + b, names);
    WithoutAppend(word, b, names);
    WithoutLiteral(word, names);
    var us := Without(ts, names);
    assert us[|Without(a, names)|..] == word + Without(b, names);
  }

  // ---------- what matching promises ----------

  function Restrict(env: Env, keys: set<string>): Env {
    map k | k in env && k in keys :: env[k]
  }

  /** The variables with every missing one read as empty. */
  function Filled(env: Env, names: set<string>): Env {
    map k | k in env.Keys + names :: if k in env then env[k] else ""
  }

  /** The formatter finds exactly the remaining variables in the new text, and formatting it gives what
      the original gives with missing variables read as empty. */
  ghost predicate Matched(variables: Env, template: string, text: string)
    requires Parse(template).Some?
  {
    var before, after := Parse(template).value, Parse(text);
    var env := Restrict(variables, Names(before));
    && after.Some? && Names(after.value) == env.Keys
    && Render(after.value, env).Some?
    && Render(after.value, env) == Render(before, Filled(variables, Names(before)))
  }

  lemma NamesCons(t: Token, ts: seq<Token>)
    ensures Names([t] + ts) == (if t.Var? then {t.name} else {}) + Names(ts)
  {
    var all := [t] + ts;
    forall n ensures n in Names(all) <==> (t.Var? && n == t.name) || n in Names(ts) {
      if n in Names(ts) {
        var i :| 0 <= i < |ts| && ts[i].Var? && ts[i].name == n;
        assert all[i + 1] == ts[i];
      }
      if t.Var? && n == t.name { assert all[0] == t; }
    }
  }

  lemma {:induction false} WithoutNames(ts: seq<Token>, names: set<string>)
    ensures Names(Without(ts, names)) == Names(ts) - names
  {
    if ts != [] {
      WithoutNames(ts[1..], names);
      NamesCons(ts[0], ts[1..]);
      assert ts == [ts[0]] + ts[1..];
      NamesCons(ts[0], Without(ts[1..], names));
    }
  }

  lemma {:induction false} WithoutTame(ts: seq<Token>, names: set<string>)
    requires Tame(ts)
    ensures Tame(Without(ts, names))
  {
    if ts != [] { WithoutTame(ts[1..], names); }
  }

  /** Rendering what is left equals rendering the original with missing variables empty. */
  lemma {:induction false} RenderWithout(ts: seq<Token>, env: Env, names: set<string>)
    requires Names(ts) <= names
    ensures Render(ts, Filled(env, names)).Some?
    ensures Render(Without(ts, names - env.Keys), Restrict(env, names)) == Render(ts, Filled(env, names))
  {
    if ts != [] {
      assert ts == [ts[0]] + ts[1..];
      NamesCons(ts[0], ts[1..]);
      RenderWithout(ts[1..], env, names);
      var tail := Without(ts[1..], names - env.Keys);
      assert ([ts[0]] + tail)[1..] == tail;
      var t := Render(ts[1..], Filled(env, names)).value;
      assert "" + t == t;
      assert ts[0].Var? ==> ts[0].name in names;
    }
  }

  /** Formatting puts the pieces together in order and fails exactly if a piece does. */
  lemma {:induction false} RenderAppend(a: seq<Token>, b: seq<Token>, env: Env)
    ensures Render(a + b, env) ==
      if Render(a, env).Some? && Render(b, env).Some? then Some(Render(a, env).value + Render(b, env).value) else None
  {
    if a == [] {
      assert a + b == b;
      if Render(b, env).Some? { assert "" + Render(b, env).value == Render(b, env).value; }
    } else {
      assert (a + b)[1..] == a[1..] + b;
      RenderAppend(a[1..], b, env);
      if Render(a, env).Some? && Render(b, env).Some? {
        var piece := match a[0] case Char(c) => [c] case Var(name) => env[name];
        var x, y := Render(a[1..], env).value, Render(b, env).value;
        assert piece + (x + y) == piece + x + y;
      }
    }
  }

  /** The pieces: a literal character is itself, a placeholder its variable's text, empty if it is missing. */
  lemma RenderPiece(c: char, name: string, env: Env, names: set<string>)
    ensures Render([Char(c)], env) == Some([c])
    ensures Render([Var(name)], env) == if name in env then Some(env[name]) else None
    ensures name in names ==> Render([Var(name)], Filled(env, names)) == Some(if name in env then env[name] else "")
  {
    assert [c] + "" == [c];
    assert name in env ==> env[name] + "" == env[name];
    assert name in names && name !in env ==> "" + "" == "";
  }

  lemma WithoutMatched(variables: Env, template: string)
    requires Parse(template).Some? && Tame(Parse(template).value)
    ensures var ts := Parse(template).value;
      Matched(variables, template, Source(Without(ts, Names(ts) - variables.Keys)))
  {
    var ts := Parse(template).value;
    var left := Without(ts, Names(ts) - variables.Keys);
    WithoutTame(ts, Names(ts) - variables.Keys);
    ParseSource(left);
    WithoutNames(ts, Names(ts) - variables.Keys);
    RenderWithout(ts, variables, Names(ts));
    assert Names(ts) - (Names(ts) - variables.Keys) == Restrict(variables, Names(ts)).Keys;
  }

  ghost predicate Enumerates(order: seq<string>, names: set<string>) {
    NoDup(order) && Elements(order) == names
  }

  lemma NamesProper(ts: seq<Token>, order: seq<string>, variables: Env)
    requires WellNamed(ts) && Enumerates(order, Names(ts) - variables.Keys)
    ensures forall i :: 0 <= i < |order| ==> IsName(order[i])
    ensures "" !in Names(ts)
  {
    forall i | 0 <= i < |order| ensures IsName(order[i]) {
      assert order[i] in Elements(order);
    }
  }

  /** One visiting order keeps the promise if and only if none of its cuts meets a literal that spells
      the name it cuts. */
  lemma OrderMatchesIffClean(variables: Env, template: string, order: seq<string>)
    requires Parse(template).Some? && WellNamed(Parse(template).value)
    requires Enumerates(order, Names(Parse(template).value) - variables.Keys)
    ensures Matched(variables, template, Cuts(template, order)) <==> Clean(Parse(template).value, order)
  {
    var ts := Parse(template).value;
    SourceParse(template);
    NamesProper(ts, order, variables);
    CutsAre(ts, order);
    if Clean(ts, order) {
      CleanCuts(ts, order);
      WithoutMatched(variables, template);
    } else {
      BrokenCuts(ts, order);
      var us := CutAll(ts, order);
      ParseSource(us);
      var i :| 0 <= i < |us| && us[i] == Var("");
      assert "" in Names(us) && "" !in Restrict(variables, Names(ts)).Keys;
    }
  }

  /** No literal spells a missing name once all other missing placeholders are gone. */
  ghost predicate Separate(ts: seq<Token>, missing: set<string>) {
    forall m :: m in missing ==> !Spells(Without(ts, missing - {m}), m)
  }

  lemma {:induction false} SeparateClean(ts: seq<Token>, order: seq<string>, missing: set<string>)
    requires Separate(ts, missing) && NoDup(order) && Elements(order) <= missing
    ensures Clean(ts, order)
  {
    if order != [] {
      var n := |order| - 1;
      var m, done := order[n], Elements(order[..n]);
      ElementsSnoc(order, n);
      SeparateClean(ts, order[..n], missing);
      assert m !in done && done <= missing - {m};
      assert done + (missing - {m}) == missing - {m};
      if Spells(Without(ts, done), m) {
        SpellsWithout(Without(ts, done), m, missing - {m});
        WithoutMore(ts, done, missing - {m});
      }
    }
  }

  /** An order of the names that ends with the given one. */
  lemma OrderEnding(names: set<string>, m: string) returns (order: seq<string>)
    requires m in names
    ensures Enumerates(order, names) && order != [] && order[|order| - 1] == m
    ensures Elements(order[..|order| - 1]) == names - {m}
  {
    var first := Enumeration(names - {m});
    order := first + [m];
    assert order[..|order| - 1] == first;
    ElementsSnoc(order, |first|);
    assert m !in Elements(first);
  }

  lemma {:induction false} Enumeration(names: set<string>) returns (order: seq<string>)
    ensures Enumerates(order, names)
    decreases |names|
  {
    if names == {} {
      order := [];
    } else {
      var m :| m in names;
      var rest := Enumeration(names - {m});
      order := rest + [m];
      assert order[..|rest|] == rest;
      ElementsSnoc(order, |rest|);
      assert m !in Elements(rest);
    }
  }

  /** Matching keeps its promise in whatever order the mismatches are visited if and only if no literal
      spells a missing name after all other missing placeholders are removed. */
  lemma EveryOrderMatchesIff(variables: Env, template: string)
    requires Parse(template).Some? && WellNamed(Parse(template).value)
    ensures var ts := Parse(template).value; var missing := Names(ts) - variables.Keys;
      (forall order :: Enumerates(order, missing) ==> Matched(variables, template, Cuts(template, order)))
      <==> Separate(ts, missing)
  {
    var ts := Parse(template).value;
    var missing := Names(ts) - variables.Keys;
    if Separate(ts, missing) {
      forall order | Enumerates(order, missing) ensures Matched(variables, template, Cuts(template, order)) {
        SeparateClean(ts, order, missing);
        OrderMatchesIffClean(variables, template, order);
      }
    } else {
      var m :| m in missing && Spells(Without(ts, missing - {m}), m);
      var order := OrderEnding(missing, m);
      assert !Clean(ts, order);
      OrderMatchesIffClean(variables, template, order);
    }
  }

  lemma NothingSpelled(ts: seq<Token>, m: string)
    requires Char('{') !in ts
    ensures !Spells(ts, m)
  {
    assert Chars(Braced(m))[0] == Char('{');
    forall i | 0 <= i <= |ts| ensures !(Chars(Braced(m)) <= ts[i..]) {
      if i < |ts| { assert ts[i..][0] == ts[i] && ts[i] in ts; }
    }
  }

  /** Without doubled opening braces nothing is ever spelled. */
  lemma BraceFreeSeparate(ts: seq<Token>, missing: set<string>)
    requires Char('{') !in ts
    ensures Separate(ts, missing)
  {
    forall m | m in missing ensures !Spells(Without(ts, missing - {m}), m) {
      WithoutMembers(ts, missing - {m});
      NothingSpelled(Without(ts, missing - {m}), m);
    }
  }

  lemma {:induction false} WithoutMembers(ts: seq<Token>, names: set<string>)
    ensures forall t :: t in Without(ts, names) ==> t in ts
  {
    if ts != [] {
      WithoutMembers(ts[1..], names);
      assert ts == [ts[0]] + ts[1..];
    }
  }

  /** So templates made of brace-free literals and placeholders always match. */
  lemma BraceFreeMatches(variables: Env, template: string, order: seq<string>)
    requires Parse(template).Some? && WellNamed(Parse(template).value) && Char('{') !in Parse(template).value
    requires Enumerates(order, Names(Parse(template).value) - variables.Keys)
    ensures Matched(variables, template, Cuts(template, order))
  {
    var ts := Parse(template).value;
    BraceFreeSeparate(ts, Names(ts) - variables.Keys);
    EveryOrderMatchesIff(variables, template);
  }

  /** The mismatches are visited in any order. */
  method Match(variables: Env, template: string) returns (r: Option<(Env, string)>)
    ensures r.None? <==> Parse(template).None?
    ensures r.Some? ==> var ts := Parse(template).value;
      && r.value.0 == Restrict(variables, Names(ts))
      && r.value.0.Keys == variables.Keys * Names(ts) && (forall k :: k in r.value.0 ==> r.value.0[k] == variables[k])
      && (exists order :: Enumerates(order, Names(ts) - variables.Keys) && r.value.1 == Cuts(template, order))
      && (WellNamed(ts) && Separate(ts, Names(ts) - variables.Keys) ==> Matched(variables, template, r.value.1))
  {
    var parsed := Parse(template);
    if parsed.None? { return None; }
    var names := Names(parsed.value);
    var env, text := variables, template;
    var todo := (variables.Keys - names) + (names - variables.Keys);
    ghost var done: set<string> := {};
    ghost var order: seq<string> := [];
    while todo != {}
      invariant done !! todo && done + todo == (variables.Keys - names) + (names - variables.Keys)
      invariant env == Restrict(variables, variables.Keys - done)
      invariant Enumerates(order, done * names) && text == Cuts(template, order)
      decreases todo
    {
      var m :| m in todo;
      if m in env { env := env - {m}; }
      if m in names {
        text := Cut(text, Braced(m));
        assert m !in Elements(order) && (order + [m])[..|order|] == order;
        ElementsSnoc(order + [m], |order|);
        order := order + [m];
        assert (done + {m}) * names == done * names + {m};
      } else {
        assert (done + {m}) * names == done * names;
      }
      todo, done := todo - {m}, done + {m};
    }
    assert done * names == names - variables.Keys;
    assert env == Restrict(variables, names);
    r := Some((env, text));
    if WellNamed(parsed.value) { EveryOrderMatchesIff(variables, template); }
  }

  /** A literal brace, a placeholder `a`, and the rest of a spelled name `m`. */
  function Opening(a: string, m: string): seq<Token> {
    [Char('{')] + ([Var(a)] + Chars(m + "}"))
  }

  function Riddle(a: string, m: string): seq<Token> {
    [Var(m)] + Opening(a, m)
  }

  lemma WithoutHead(t: Token, rest: seq<Token>, names: set<string>)
    ensures Without([t] + rest, names) ==
      if t.Var? && t.name in names then Without(rest, names) else [t] + Without(rest, names)
  {
    assert ([t] + rest)[1..] == rest;
  }

  lemma RiddleWithoutM(a: string, m: string)
    requires a != m
    ensures Without(Riddle(a, m), {m}) == Opening(a, m)
  {
    var rest := Chars(m + "}");
    WithoutLiteral(rest, {m});
    WithoutHead(Var(a), rest, {m});
    WithoutHead(Char('{'), [Var(a)] + rest, {m});
    WithoutHead(Var(m), Opening(a, m), {m});
  }

  lemma RiddleWithoutA(a: string, m: string)
    requires a != m
    ensures Without(Riddle(a, m), {a}) == [Var(m)] + ([Char('{')] + Chars(m + "}"))
  {
    var rest := Chars(m + "}");
    WithoutLiteral(rest, {a});
    WithoutHead(Var(a), rest, {a});
    WithoutHead(Char('{'), [Var(a)] + rest, {a});
    WithoutHead(Var(m), Opening(a, m), {a});
  }

  /** Where the only literal brace is followed by a placeholder, nothing is spelled. */
  lemma KeptApart(ts: seq<Token>, k: nat, n: string)
    requires IsName(n) && k + 1 < |ts| && ts[k + 1].Var?
    requires forall i :: 0 <= i < |ts| && i != k ==> ts[i] != Char('{')
    ensures !Spells(ts, n)
  {
    var word := Chars(Braced(n));
    assert word[0] == Char('{') && word[1].Char? && |word| >= 3;
    forall i | 0 <= i <= |ts| ensures !(word <= ts[i..]) {
      if i < |ts| { assert ts[i..][0] == ts[i]; }
      if i == k { assert ts[i..][1] == ts[k + 1]; }
    }
  }

  lemma OpeningShape(a: string, m: string)
    requires IsName(m)
    ensures var ts := Opening(a, m);
      |ts| > 1 && ts[1].Var? && forall i :: 0 < i < |ts| ==> ts[i] != Char('{')
  {
    var text := m + "}";
    forall i | 0 <= i < |text| ensures text[i] != '{' { assert i < |m| ==> text[i] in m; }
  }

  lemma RiddleJoins(m: string)
    ensures Spells([Var(m)] + ([Char('{')] + Chars(m + "}")), m)
  {
    var ts := [Var(m)] + ([Char('{')] + Chars(m + "}"));
    assert Braced(m) == ['{'] + (m + "}");
    CharsCons('{', m + "}");
    assert ts[1..] == Chars(Braced(m));
  }

  lemma OrderOfTwo(ts: seq<Token>, x: string, y: string)
    ensures Clean(ts, [x, y]) <==> !Spells(ts, x) && !Spells(Without(ts, {x}), y)
  {
    assert [x, y][..1] == [x] && [x][..0] == [] && Elements([]) == {} && Elements([x]) == {x};
    WithoutNothing(ts);
    assert Clean(ts, [x]) <==> !Spells(ts, x);
  }

  lemma RiddleMFirst(a: string, m: string)
    requires IsName(a) && IsName(m) && a != m
    ensures Clean(Riddle(a, m), [m, a])
  {
    OpeningShape(a, m);
    KeptApart(Riddle(a, m), 1, m);
    KeptApart(Opening(a, m), 0, a);
    RiddleWithoutM(a, m);
    OrderOfTwo(Riddle(a, m), m, a);
  }

  lemma RiddleAFirst(a: string, m: string)
    requires a != m
    ensures !Clean(Riddle(a, m), [a, m])
  {
    RiddleWithoutA(a, m);
    RiddleJoins(m);
    OrderOfTwo(Riddle(a, m), a, m);
  }

  lemma RiddleParses(a: string, m: string)
    requires IsName(a) && IsName(m)
    ensures Parse(Source(Riddle(a, m))) == Some(Riddle(a, m)) && WellNamed(Riddle(a, m)) && Names(Riddle(a, m)) == {a, m}
  {
    var ts := Riddle(a, m);
    assert ts[0] == Var(m) && ts[1] == Char('{') && ts[2] == Var(a);
    assert forall i :: 3 <= i < |ts| ==> ts[i].Char?;
    ParseSource(ts);
  }

  lemma BothOrders(a: string, m: string, variables: Env)
    requires a != m && a !in variables && m !in variables
    ensures Enumerates([m, a], {a, m} - variables.Keys) && Enumerates([a, m], {a, m} - variables.Keys)
  {
    assert {a, m} - variables.Keys == {a, m};
    assert Elements([m, a]) == {a, m} && Elements([a, m]) == {a, m};
  }

  /** The visiting order alone can decide: cutting `a` before `m` joins the literals and the promise
      fails, the other order keeps it. */
  lemma OrderDecides(variables: Env, a: string, m: string)
    requires IsName(a) && IsName(m) && a != m && a !in variables && m !in variables
    ensures var template := Source(Riddle(a, m));
      && Parse(template).Some?
      && Matched(variables, template, Cuts(template, [m, a]))
      && !Matched(variables, template, Cuts(template, [a, m]))
  {
    RiddleParses(a, m);
    RiddleMFirst(a, m);
    RiddleAFirst(a, m);
    BothOrders(a, m, variables);
    var template := Source(Riddle(a, m));
    OrderMatchesIffClean(variables, template, [m, a]);
    OrderMatchesIffClean(variables, template, [a, m]);
  }
}
