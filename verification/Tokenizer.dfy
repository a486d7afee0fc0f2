/** tokenize and toSelector for the lexicon of ids, classes, tags, combinators and commas. */
module Tokenizer {
  import opened Helpers

  /** `Comb` keeps the combinator character, a space for any whitespace. */
  datatype Kind = Comb(c: char) | Tag | Class | Id

  datatype Token = Token(value: string, kind: Kind)

  // The regular expressions, as the length of the text that they match at the start of `s`

  predicate IsSpace(c: char) {
    c == ' ' || c == '\t' || c == '\r' || c == '\n' || c == '\U{000C}'
  }

  predicate IsLineEnd(c: char) {
    c == '\n' || c == '\r' || c == '\U{2028}' || c == '\U{2029}'
  }

  predicate IsName(c: char, star: bool) {
    || 'a' <= c <= 'z' || 'A' <= c <= 'Z' || '0' <= c <= '9' || c == '_' || c == '-'
    || c > '\U{00A0}' || (star && c == '*')
  }

  predicate IsRelative(c: char) {
    c == '>' || c == '+' || c == '~'
  }

  /** `whitespace*` */
  function Spaces(s: string): (n: nat)
    ensures n <= |s| && (forall i | 0 <= i < n :: IsSpace(s[i])) && (n < |s| ==> !IsSpace(s[n]))
  {
    if s == "" || !IsSpace(s[0]) then 0 else 1 + Spaces(s[1..])
  }

  /** `characterEncoding`: name characters and escapes. With `star`, as for tags, also asterisks. */
  function Name(s: string, star: bool): (n: nat)
    ensures n <= |s|
  {
    if s == "" then 0
    else if IsName(s[0], star) then 1 + Name(s[1..], star)
    else if s[0] == '\\' && |s| > 1 && !IsLineEnd(s[1]) then 2 + Name(s[2..], star)
    else 0
  }

  /** `rcomma` */
  function Comma(s: string): (n: nat)
    ensures n <= |s|
  {
    var w := Spaces(s);
    if w < |s| && s[w] == ',' then w + 1 + Spaces(s[w + 1..]) else 0
  }

  /** `rcombinators`; whitespace alone is a combinator too. */
  function Combinator(s: string): (n: nat)
    ensures n <= |s|
  {
    var w := Spaces(s);
    if w < |s| && IsRelative(s[w]) then w + 1 + Spaces(s[w + 1..]) else w
  }

  function CombinatorAt(s: string): Option<Token> {
    var n, w := Combinator(s), Spaces(s);
    if n == 0 then None else Some(Token(s[..n], Comb(if w < n then s[w] else ' ')))
  }

  /** The filter of a kind at the start of `s`. */
  function FilterAt(s: string, kind: Kind): Option<Token> {
    match kind
    case Comb(_) => None
    case Tag => var n := Name(s, true); if n == 0 then None else Some(Token(s[..n], Tag))
    case _ =>
      if s == "" || s[0] != (if kind.Id? then '#' else '.') then None
      else var n := Name(s[1..], false); if n == 0 then None else Some(Token(s[..n + 1], kind))
  }

  function ToSelector(tokens: seq<Token>): string {
    if tokens == [] then "" else tokens[0].value + ToSelector(tokens[1..])
  }

  // What tokenizing gives, one token at a time

  /** The token at the start of `s`. No text starts two of them. */
  function LexOne(s: string): (t: Option<Token>)
    ensures t.Some? ==> 0 < |t.value.value| <= |s| && t.value.value == s[..|t.value.value|]
  {
    if CombinatorAt(s).Some? then CombinatorAt(s)
    else if FilterAt(s, Tag).Some? then FilterAt(s, Tag)
    else if FilterAt(s, Class).Some? then FilterAt(s, Class)
    else FilterAt(s, Id)
  }

  /** No token is taken from `s`. */
  predicate Stops(s: string, start: bool) {
    s == "" || (!start && Comma(s) > 0) || LexOne(s).None?
  }

  /** The tokens up to a comma, or up to text that starts no token, and the text that is left.
      At the beginning of a group a comma is not looked for. */
  function Lex(s: string, start: bool): (r: (seq<Token>, string))
    ensures |r.1| <= |s| && (r.0 != [] ==> |r.1| < |s|)
    decreases |s|
  {
    if Stops(s, start) then ([], s)
    else
      var t := LexOne(s).value;
      var (ts, rest) := Lex(s[|t.value|..], false);
      ([t] + ts, rest)
  }

  /** The groups of `s`, the first of which begins at its start. */
  function Groups(s: string): Option<seq<seq<Token>>>
    decreases |s|, 0
  {
    var (ts, rest) := Lex(s, true);
    if ts == [] then None else Tail(ts, rest)
  }

  /** The group `g` and those after it, when `g` ends before `rest`. A comma at the very end is left in the text. */
  function Tail(g: seq<Token>, rest: string): Option<seq<seq<Token>>>
    decreases |rest|, 1
  {
    if rest == "" then Some([g])
    else if Comma(rest) == 0 then None
    else
      var next := rest[Comma(rest)..];
      var later := Groups(if next == "" then rest else next);
      if later.None? then None else Some([g] + later.value)
  }

  function Tokenize(selector: string): Option<seq<seq<Token>>> {
    if selector == "" then Some([]) else Groups(selector)
  }

  /** The tokens and the rest make up the text. */
  lemma {:induction false} LexText(s: string, start: bool)
    ensures var (ts, rest) := Lex(s, start);
            ToSelector(ts) + rest == s && (ts != [] <==> !Stops(s, start)) && (ts != [] ==> |rest| < |s|)
    decreases |s|
  {
    if !Stops(s, start) {
      var t := LexOne(s).value;
      var tail := s[|t.value|..];
      var (ts, rest) := Lex(tail, false);
      LexText(tail, false);
      assert Lex(s, start) == ([t] + ts, rest);
      Concat(t, ts, rest);
      assert s == t.value + tail;
    }
  }

  lemma Concat(t: Token, ts: seq<Token>, rest: string)
    ensures ToSelector([t] + ts) + rest == t.value + (ToSelector(ts) + rest)
  {
    assert ([t] + ts)[1..] == ts;
  }

  // Tokenizing a group again

  lemma {:induction false} SpacesPrefix(p: string, rest: string)
    requires Spaces(p + rest) <= |p|
    ensures Spaces(p) == Spaces(p + rest)
  {
    if p != [] {
      assert (p + rest)[1..] == p[1..] + rest;
      if IsSpace(p[0]) {
        SpacesPrefix(p[1..], rest);
      }
    }
  }

  lemma {:induction false} NamePrefix(p: string, rest: string, star: bool)
    requires Name(p + rest, star) <= |p|
    ensures Name(p, star) == Name(p + rest, star)
    decreases |p|
  {
    var s := p + rest;
    if p != [] {
      assert s[0] == p[0];
      if IsName(p[0], star) {
        assert s[1..] == p[1..] + rest;
        NamePrefix(p[1..], rest, star);
      } else if s[0] == '\\' && |s| > 1 && !IsLineEnd(s[1]) {
        assert |p| >= 2 && s[2..] == p[2..] + rest;
        NamePrefix(p[2..], rest, star);
      }
    }
  }

  lemma CombinatorPrefix(p: string, rest: string)
    requires Combinator(p + rest) <= |p|
    ensures CombinatorAt(p) == CombinatorAt(p + rest)
  {
    var s := p + rest;
    var w, n := Spaces(s), Combinator(s);
    SpacesPrefix(p, rest);
    if w < |s| && IsRelative(s[w]) {
      assert p[w] == s[w] && s[w + 1..] == p[w + 1..] + rest;
      SpacesPrefix(p[w + 1..], rest);
    } else {
      assert w < |p| ==> p[w] == s[w];
    }
    assert Combinator(p) == n && s[..n] == p[..n];
    assert w < n ==> s[w] == p[w];
  }

  lemma FilterPrefix(p: string, rest: string, kind: Kind)
    requires FilterAt(p + rest, kind).Some? ==> |FilterAt(p + rest, kind).value.value| <= |p|
    ensures FilterAt(p, kind) == FilterAt(p + rest, kind) || p == ""
  {
    var s := p + rest;
    if p != "" {
      assert s[1..] == p[1..] + rest;
      match kind
      case Comb(_) =>
      case Tag =>
        NamePrefix(p, rest, true);
        assert s[..Name(s, true)] == p[..Name(s, true)];
      case _ =>
        if s[0] == (if kind.Id? then '#' else '.') {
          NamePrefix(p[1..], rest, false);
          assert s[..Name(s[1..], false) + 1] == p[..Name(s[1..], false) + 1];
        }
    }
  }

  /** A token is the same when text after it is cut off. */
  lemma LexOnePrefix(p: string, rest: string)
    requires LexOne(p + rest).Some? && |LexOne(p + rest).value.value| <= |p|
    ensures LexOne(p) == LexOne(p + rest)
  {
    var s := p + rest;
    if CombinatorAt(s).Some? {
      CombinatorPrefix(p, rest);
    } else {
      CombinatorPrefix(p, rest);
      assert p != "" && s[0] == p[0];
      if FilterAt(s, Tag).Some? {
        FilterPrefix(p, rest, Tag);
      } else if FilterAt(s, Class).Some? {
        FilterPrefix(p, rest, Tag);
        FilterPrefix(p, rest, Class);
      } else {
        FilterPrefix(p, rest, Tag);
        FilterPrefix(p, rest, Class);
        FilterPrefix(p, rest, Id);
      }
    }
  }

  lemma CommaPrefix(p: string, rest: string)
    requires Comma(p + rest) == 0
    ensures Comma(p) == 0
  {
    var w := Spaces(p);
    if w < |p| {
      SpacesStop(p, rest);
    }
  }

  lemma {:induction false} SpacesStop(p: string, rest: string)
    requires Spaces(p) < |p|
    ensures Spaces(p + rest) == Spaces(p) && (p + rest)[Spaces(p)] == p[Spaces(p)]
  {
    assert (p + rest)[0] == p[0];
    if IsSpace(p[0]) {
      assert (p + rest)[1..] == p[1..] + rest;
      SpacesStop(p[1..], rest);
    }
  }

  lemma LexStep(t: Token, tail: string, start: bool)
    requires LexOne(t.value + tail) == Some(t) && (start || Comma(t.value + tail) == 0)
    ensures Lex(t.value + tail, start) == ([t] + Lex(tail, false).0, Lex(tail, false).1)
  {
    var s := t.value + tail;
    assert s[|t.value|..] == tail && !Stops(s, start);
  }

  lemma {:induction false} LexAgainStep(t: Token, ts: seq<Token>, rest: string, start: bool)
    requires t.value != "" && Lex(ToSelector(ts), false) == (ts, "")
    requires LexOne(t.value + ToSelector(ts) + rest) == Some(t)
    requires start || Comma(t.value + ToSelector(ts) + rest) == 0
    ensures Lex(ToSelector([t] + ts), start) == ([t] + ts, "")
  {
    var p := t.value + ToSelector(ts);
    LexOnePrefix(p, rest);
    if !start {
      CommaPrefix(p, rest);
    }
    LexStep(t, ToSelector(ts), start);
    assert ([t] + ts)[1..] == ts;
  }

  /** The text of the tokens of a group lexes to the same tokens, whatever came after it. */
  lemma {:induction false} LexAgain(s: string, start: bool)
    ensures var ts := Lex(s, start).0; Lex(ToSelector(ts), start) == (ts, "")
    decreases |s|
  {
    if !Stops(s, start) {
      var t := LexOne(s).value;
      var tail := s[|t.value|..];
      var (ts, rest) := Lex(tail, false);
      LexAgain(tail, false);
      LexText(tail, false);
      Associative(t.value, ToSelector(ts), rest);
      assert s == t.value + tail;
      LexAgainStep(t, ts, rest, start);
    }
  }

  predicate Again(g: seq<Token>) {
    g != [] && Tokenize(ToSelector(g)) == Some([g])
  }

  lemma GroupAgain(s: string)
    requires !Stops(s, true)
    ensures Again(Lex(s, true).0)
  {
    var g := Lex(s, true).0;
    var text := ToSelector(g);
    LexText(s, true);
    LexAgain(s, true);
    assert text != "" && g != [];
    assert Groups(text) == Tail(g, "");
  }

  /** Every group of a tokenized selector tokenizes to itself. */
  lemma {:induction false} GroupsAgain(s: string)
    requires Groups(s).Some?
    ensures forall g | g in Groups(s).value :: Again(g)
    decreases |s|
  {
    var (ts, rest) := Lex(s, true);
    LexText(s, true);
    GroupAgain(s);
    if rest != "" {
      var next := rest[Comma(rest)..];
      GroupsAgain(if next == "" then rest else next);
    }
  }

  // What the kind of a token says about its text

  predicate AllSpace(s: string) {
    forall i | 0 <= i < |s| :: IsSpace(s[i])
  }

  /** The character `c`, with any whitespace around it. */
  predicate Around(value: string, c: char) {
    exists i | 0 <= i < |value| :: value[i] == c && forall j | 0 <= j < |value| && j != i :: IsSpace(value[j])
  }

  /** The kind of a token can be read from its text. */
  predicate Fits(t: Token) {
    && t.value != ""
    && (forall c | c in {'>', '+', '~'} :: t.kind == Comb(c) <==> Around(t.value, c))
    && (t.kind == Comb(' ') <==> AllSpace(t.value))
    && (t.kind.Comb? ==> t.kind.c in {' ', '>', '+', '~'})
    && (t.kind == Id <==> t.value[0] == '#')
    && (t.kind == Class <==> t.value[0] == '.')
    && (t.kind == Tag ==> NameChars(t.value, true))
    && (t.kind == Id || t.kind == Class ==> t.value[1..] != "" && NameChars(t.value[1..], false))
  }

  /** Name characters and escapes. */
  predicate NameChars(s: string, star: bool) {
    forall i | 0 <= i < |s| :: IsName(s[i], star) || s[i] == '\\' || (i > 0 && s[i - 1] == '\\')
  }

  /** No text has two kinds. */
  lemma NotAround(value: string, c: char, k: nat)
    requires k < |value| && !IsSpace(value[k]) && value[k] != c
    ensures !Around(value, c)
  {
  }

  lemma AllSpaceNotAround(value: string, c: char)
    requires AllSpace(value) && !IsSpace(c)
    ensures !Around(value, c)
  {
  }

  lemma CombinatorFits(s: string)
    requires CombinatorAt(s).Some?
    ensures Fits(CombinatorAt(s).value)
  {
    var n, w := Combinator(s), Spaces(s);
    var v := s[..n];
    if w < n {
      assert v[w] == s[w];
      forall j | w < j < n ensures IsSpace(v[j]) {
        assert v[j] == s[w + 1..][j - w - 1];
      }
      assert Around(v, s[w]);
      forall c | c in {'>', '+', '~'} && c != s[w] ensures !Around(v, c) {
        NotAround(v, c, w);
      }
      assert v[0] == s[0] && (w == 0 || IsSpace(v[0]));
    } else {
      forall c | c in {'>', '+', '~'} ensures !Around(v, c) {
        AllSpaceNotAround(v, c);
      }
    }
  }

  lemma FilterFits(s: string, kind: Kind)
    requires FilterAt(s, kind).Some? && CombinatorAt(s).None?
    ensures Fits(FilterAt(s, kind).value)
  {
    var v := FilterAt(s, kind).value.value;
    if kind == Tag {
      NameText(s, true);
    } else {
      NameText(s[1..], false);
      assert v[1..] == s[1..][..Name(s[1..], false)];
    }
    assert v[0] == s[0] && !IsSpace(s[0]) && !IsRelative(s[0]);
    forall c | c in {'>', '+', '~'} ensures !Around(v, c) {
      NotAround(v, c, 0);
    }
  }

  lemma TokenFits(s: string)
    requires LexOne(s).Some?
    ensures Fits(LexOne(s).value)
  {
    if CombinatorAt(s).Some? {
      CombinatorFits(s);
    } else {
      FilterFits(s, LexOne(s).value.kind);
    }
  }

  /** Two tokens of a group that follow each other: whitespace belongs to the combinator that it surrounds, and a tag
      takes all the characters that it can. */
  predicate Apart(t: Token, next: Token) {
    && !(t.kind == Comb(' ') && next.kind.Comb?)
    && !(t.kind.Comb? && next.kind == Comb(' '))
    && !(t.kind == Tag && next.kind == Tag)
  }

  lemma SpacesStopHere(s: string)
    ensures Spaces(s[Spaces(s)..]) == 0
  {
  }

  lemma {:induction false} NameStopsHere(s: string, star: bool)
    ensures Name(s[Name(s, star)..], star) == 0
    decreases |s|
  {
    if s != "" && IsName(s[0], star) {
      NameStopsHere(s[1..], star);
      assert s[Name(s, star)..] == s[1..][Name(s[1..], star)..];
    } else if s != "" && s[0] == '\\' && |s| > 1 && !IsLineEnd(s[1]) {
      NameStopsHere(s[2..], star);
      assert s[Name(s, star)..] == s[2..][Name(s[2..], star)..];
    }
  }

  /** After a combinator comes no whitespace, and after whitespace no combinator. */
  lemma CombinatorApart(s: string)
    requires CombinatorAt(s).Some?
    ensures var t := CombinatorAt(s).value;
            var tail := s[|t.value|..];
            Spaces(tail) == 0 && (t.kind == Comb(' ') ==> CombinatorAt(tail).None?)
  {
    var w, n := Spaces(s), Combinator(s);
    SpacesStopHere(s);
    if w < n {
      SpacesStopHere(s[w + 1..]);
      assert s[n..] == s[w + 1..][Spaces(s[w + 1..])..];
    } else {
      NoRelative(s[w..]);
    }
  }

  lemma NoRelative(s: string)
    requires Spaces(s) == 0 && (s != "" ==> !IsRelative(s[0]))
    ensures CombinatorAt(s).None?
  {
  }

  /** What cannot start with whitespace, a combinator or a name gives no such token. */
  lemma NextKind(s: string)
    requires LexOne(s).Some?
    ensures Spaces(s) == 0 ==> LexOne(s).value.kind != Comb(' ')
    ensures CombinatorAt(s).None? ==> !LexOne(s).value.kind.Comb?
    ensures Name(s, true) == 0 ==> LexOne(s).value.kind != Tag
  {
  }

  lemma TokensApart(s: string)
    requires LexOne(s).Some? && LexOne(s[|LexOne(s).value.value|..]).Some?
    ensures Apart(LexOne(s).value, LexOne(s[|LexOne(s).value.value|..]).value)
  {
    NextKind(s);
    NextKind(s[|LexOne(s).value.value|..]);
    if CombinatorAt(s).Some? {
      CombinatorApart(s);
    } else {
      NameStopsHere(s, true);
    }
  }

  predicate GroupFits(g: seq<Token>) {
    (forall i | 0 <= i < |g| :: Fits(g[i])) && forall i | 0 < i < |g| :: Apart(g[i - 1], g[i])
  }

  lemma GroupFitsMore(t: Token, g: seq<Token>)
    requires Fits(t) && GroupFits(g) && (g != [] ==> Apart(t, g[0]))
    ensures GroupFits([t] + g)
  {
    var all := [t] + g;
    assert forall i | 0 < i < |all| :: all[i] == g[i - 1];
  }

  lemma {:induction false} LexFits(s: string, start: bool)
    ensures GroupFits(Lex(s, start).0)
    ensures Lex(s, start).0 != [] ==> LexOne(s) == Some(Lex(s, start).0[0])
    decreases |s|
  {
    if !Stops(s, start) {
      var t := LexOne(s).value;
      var tail := s[|t.value|..];
      TokenFits(s);
      LexFits(tail, false);
      if Lex(tail, false).0 != [] {
        TokensApart(s);
      }
      GroupFitsMore(t, Lex(tail, false).0);
    }
  }

  lemma {:induction false} GroupsFit(s: string)
    requires Groups(s).Some?
    ensures forall g | g in Groups(s).value :: GroupFits(g)
    decreases |s|
  {
    var rest := Lex(s, true).1;
    LexText(s, true);
    LexFits(s, true);
    if rest != "" {
      var next := rest[Comma(rest)..];
      GroupsFit(if next == "" then rest else next);
    }
  }

  /** In every group of a tokenized selector the kind of each token is the one that its text says: a combinator is its
      character with any whitespace around it, or whitespace alone; and no token could have been longer. */
  lemma KindsFit(selector: string)
    requires Tokenize(selector).Some?
    ensures forall g | g in Tokenize(selector).value :: GroupFits(g)
  {
    if selector != "" {
      GroupsFit(selector);
    }
  }

  lemma NameCharsMore(head: string, rest: string, star: bool)
    requires NameChars(head, star) && NameChars(rest, star)
    ensures NameChars(head + rest, star)
  {
    var all := head + rest;
    forall i | 0 <= i < |all| ensures IsName(all[i], star) || all[i] == '\\' || (i > 0 && all[i - 1] == '\\') {
      if i >= |head| {
        assert all[i] == rest[i - |head|];
        if i > |head| {
          assert all[i - 1] == rest[i - 1 - |head|];
        }
      }
    }
  }

  /** No character of a name and no escape begins the text. */
  predicate NoName(s: string, star: bool) {
    s != "" ==> !IsName(s[0], star) && !(s[0] == '\\' && |s| > 1 && !IsLineEnd(s[1]))
  }

  /** A name goes on after its first character or escape. */
  lemma NameGoesOn(s: string, star: bool) returns (k: nat)
    requires !NoName(s, star)
    ensures 0 < k <= |s| && NameChars(s[..k], star) && Name(s, star) == k + Name(s[k..], star)
  {
    k := if IsName(s[0], star) then 1 else 2;
  }

  lemma Slices(s: string, k: nat, n: nat)
    requires k + n <= |s|
    ensures s[..k + n] == s[..k] + s[k..][..n] && s[k + n..] == s[k..][n..]
  {
  }

  /** A name consists of name characters and escapes, and ends where neither begins. */
  lemma {:induction false} NameText(s: string, star: bool)
    ensures NameChars(s[..Name(s, star)], star) && NoName(s[Name(s, star)..], star)
    decreases |s|
  {
    if NoName(s, star) {
      assert Name(s, star) == 0 && s[..0] == "" && s[0..] == s;
    } else {
      var k := NameGoesOn(s, star);
      var n := Name(s[k..], star);
      NameText(s[k..], star);
      NameCharsMore(s[..k], s[k..][..n], star);
      Slices(s, k, n);
    }
  }

  // Commas

  lemma CommaStartsNothing(s: string)
    requires s != "" && s[0] == ','
    ensures LexOne(s).None? && Comma(s) > 0
  {
  }

  /** A comma that nothing precedes is rejected. */
  lemma LeadingComma(s: string)
    requires s != "" && s[0] == ','
    ensures Groups(s) == None
  {
    CommaStartsNothing(s);
  }

  /** Whitespace in front of a comma. */
  predicate SpacesBefore(sp: string, rest: string) {
    sp != "" && (forall i | 0 <= i < |sp| :: IsSpace(sp[i])) && rest != "" && rest[0] == ','
  }

  lemma {:induction false} SpacesOf(sp: string, rest: string)
    requires (forall i | 0 <= i < |sp| :: IsSpace(sp[i])) && rest != "" && rest[0] == ','
    ensures Spaces(sp + rest) == |sp|
  {
    if sp == "" {
      assert sp + rest == rest;
    } else {
      assert (sp + rest)[1..] == sp[1..] + rest;
      SpacesOf(sp[1..], rest);
    }
  }

  lemma {:induction false} LexSpaces(sp: string, rest: string)
    requires SpacesBefore(sp, rest)
    ensures Lex(sp + rest, true) == ([Token(sp, Comb(' '))], rest)
  {
    var t := Token(sp, Comb(' '));
    SpacesOf(sp, rest);
    assert (sp + rest)[..|sp|] == sp && (sp + rest)[|sp|] == ',';
    assert LexOne(sp + rest) == Some(t);
    CommaStartsNothing(rest);
    LexStep(t, rest, true);
    assert Lex(rest, false) == ([], rest) && [t] + [] == [t];
  }

  /** Exactly when a selector that begins with a comma is accepted: whitespace before the comma is taken for a
      combinator and makes a group of its own, and something that tokenizes must follow the comma. */
  lemma {:induction false} LeadingCommas(sp: string, rest: string)
    requires (forall i | 0 <= i < |sp| :: IsSpace(sp[i])) && rest != "" && rest[0] == ','
    ensures var next := rest[Comma(rest)..];
            Groups(sp + rest).Some? <==> sp != "" && next != "" && Groups(next).Some?
  {
    LeadingComma(rest);
    if sp == "" {
      assert sp + rest == rest;
    } else {
      LexSpaces(sp, rest);
      CommaStartsNothing(rest);
    }
  }

  /** A selector that begins with a comma, after a space, and is accepted. */
  lemma AcceptedComma()
    ensures Tokenize(" ,q").Some?
  {
    var rest := ",q";
    assert rest[1..] == "q" && Comma(rest) == 1;
    QTag();
    LeadingCommas(" ", rest);
    assert " " + rest == " ,q";
  }

  lemma QTag()
    ensures Groups("q") == Some([[Token("q", Tag)]])
  {
    var t := Token("q", Tag);
    assert "q"[1..] == "" && Name("q", true) == 1 && "q"[..1] == "q";
    assert FilterAt("q", Tag) == Some(t);
    FilterIsToken("q", Tag);
    assert LexOne("q") == Some(t);
    assert t.value + "" == "q";
    LexStep(t, "", true);
    assert [t] + [] == [t];
  }

  /** A comma at the end of what is left, with any whitespace around it, is rejected. */
  lemma {:induction false} TrailingComma(s: string)
    requires s != "" && Comma(s) == |s|
    ensures Groups(s) == None
  {
    var w := Spaces(s);
    var sp, rest := s[..w], s[w..];
    assert s == sp + rest && rest[0] == s[w] == ',';
    assert rest[1..] == s[w + 1..];
    assert Comma(rest) == |rest| by {
      assert Spaces(rest) == 0;
    }
    LeadingCommas(sp, rest);
  }

  /** The texts of the groups with the comma texts between them. */
  function Joined(groups: seq<seq<Token>>, commas: seq<string>): string
    requires |groups| == |commas| + 1
  {
    if commas == [] then ToSelector(groups[0])
    else ToSelector(groups[0]) + (commas[0] + Joined(groups[1..], commas[1..]))
  }

  /** A comma with any whitespace around it. */
  predicate IsComma(c: string) {
    Around(c, ',')
  }

  /** No whitespace is left after a comma. */
  lemma CommaSelf(s: string)
    requires Comma(s) > 0
    ensures IsComma(s[..Comma(s)]) && Spaces(s[Comma(s)..]) == 0
  {
    var w, n := Spaces(s), Comma(s);
    var c := s[..n];
    assert c[w] == ',';
    forall j | w < j < n ensures IsSpace(c[j]) {
      assert c[j] == s[w + 1..][j - w - 1];
    }
    SpacesStopHere(s[w + 1..]);
    assert s[n..] == s[w + 1..][Spaces(s[w + 1..])..];
  }

  lemma JoinedMore(g: seq<Token>, c: string, groups: seq<seq<Token>>, commas: seq<string>)
    requires |groups| == |commas| + 1
    ensures Joined([g] + groups, [c] + commas) == ToSelector(g) + (c + Joined(groups, commas))
  {
    assert ([g] + groups)[1..] == groups && ([c] + commas)[1..] == commas;
  }

  lemma GroupsStep(s: string, groups: seq<seq<Token>>)
    requires Groups(s) == Some(groups)
    ensures groups != [] && groups[0] != [] && |Lex(s, true).1| < |s|
    ensures var rest := Lex(s, true).1;
            && s == ToSelector(groups[0]) + rest
            && if rest == "" then |groups| == 1
               else Comma(rest) > 0 && Groups(rest[Comma(rest)..]) == Some(groups[1..])
  {
    var (ts, rest) := Lex(s, true);
    LexText(s, true);
    if rest != "" && rest[Comma(rest)..] == "" {
      TrailingComma(rest);
    }
  }

  /** The text of a group, a comma, and the text of the groups after it. */
  lemma JoinedRest(g: seq<Token>, later: seq<seq<Token>>, rest: string, n: nat, others: seq<string>)
    requires |later| == |others| + 1 && n <= |rest| && rest[n..] == Joined(later, others)
    ensures Joined([g] + later, [rest[..n]] + others) == ToSelector(g) + rest
  {
    assert rest[..n] + rest[n..] == rest;
    JoinedMore(g, rest[..n], later, others);
  }

  lemma Associative(a: string, b: string, c: string)
    ensures a + b + c == a + (b + c)
  {
  }

  /** On success the selector is the texts of the groups, none of them empty, with the comma texts between them. */
  lemma {:induction false} Shape(s: string, groups: seq<seq<Token>>) returns (commas: seq<string>)
    requires Groups(s) == Some(groups)
    ensures |groups| == |commas| + 1 && s == Joined(groups, commas)
    ensures forall c | c in commas :: IsComma(c)
    decreases |s|
  {
    var rest := Lex(s, true).1;
    GroupsStep(s, groups);
    if rest == "" {
      commas := [];
      assert Joined(groups, []) == ToSelector(groups[0]);
    } else {
      var n := Comma(rest);
      var others := Shape(rest[n..], groups[1..]);
      CommaSelf(rest);
      JoinedRest(groups[0], groups[1..], rest, n, others);
      assert groups == [groups[0]] + groups[1..];
      commas := [rest[..n]] + others;
    }
  }

  /** The groups of a tokenized selector make up its text together with the commas, and each of them
      tokenizes to itself. */
  lemma {:induction false} RoundTrip(selector: string) returns (commas: seq<string>)
    requires selector != "" && Tokenize(selector).Some?
    ensures var groups := Tokenize(selector).value;
            && |groups| == |commas| + 1 && selector == Joined(groups, commas)
            && (forall c | c in commas :: IsComma(c))
            && forall g | g in groups :: Again(g)
  {
    commas := Shape(selector, Groups(selector).value);
    GroupsAgain(selector);
  }

  // A selector that ends in a comma

  /** An even number of backslashes comes right before `k`, counted back to `n` at most. */
  predicate EvenRun(s: string, n: nat, k: nat)
    requires n <= k <= |s|
  {
    k == n || s[k - 1] != '\\' || (k - 2 >= n && s[k - 2] == '\\' && EvenRun(s, n, k - 2))
  }

  /** Reading from `n` on, the comma at `k` is not escaped. */
  predicate FreeComma(s: string, n: nat, k: nat) {
    n <= k < |s| && s[k] == ',' && EvenRun(s, n, k)
  }

  /** Only whitespace follows the comma at `k`. */
  predicate Ends(s: string, k: nat) {
    forall i | k < i < |s| :: IsSpace(s[i])
  }

  lemma {:induction false} RunLater(s: string, n: nat, m: nat, k: nat)
    requires n <= m <= k <= |s| && EvenRun(s, n, k) && (m == n || s[m - 1] != '\\')
    ensures EvenRun(s, m, k)
  {
    if m < k && s[k - 1] == '\\' {
      RunLater(s, n, m, k - 2);
    }
  }

  lemma {:induction false} RunAfterPair(s: string, n: nat, k: nat)
    requires n < k <= |s| && EvenRun(s, n, k) && s[n] == '\\'
    ensures n + 2 <= k && EvenRun(s, n + 2, k)
  {
    if k > n + 2 && s[k - 1] == '\\' {
      RunAfterPair(s, n, k - 2);
    }
  }

  lemma DropDrop(s: string, a: nat, b: nat)
    requires a + b <= |s|
    ensures s[a..][b..] == s[a + b..]
  {
  }

  lemma {:induction false} NameStops(s: string, n: nat, star: bool, k: nat)
    requires FreeComma(s, n, k)
    ensures FreeComma(s, n + Name(s[n..], star), k)
    decreases |s| - n
  {
    if IsName(s[n], star) {
      DropDrop(s, n, 1);
      RunLater(s, n, n + 1, k);
      NameStops(s, n + 1, star, k);
    } else if s[n] == '\\' && n + 1 < |s| && !IsLineEnd(s[n + 1]) {
      DropDrop(s, n, 2);
      RunAfterPair(s, n, k);
      NameStops(s, n + 2, star, k);
    }
  }

  lemma {:induction false} SpacesEnd(s: string, k: nat)
    requires k < |s| && !IsSpace(s[k])
    ensures Spaces(s) <= k
  {
  }

  /** A character and the whitespace after it end before a later comma, and not in a backslash. */
  lemma SeparatorEnd(u: string, w: nat, c: nat)
    requires w < c < |u| && u[w] != '\\' && u[c] == ','
    ensures var m := w + 1 + Spaces(u[w + 1..]); m <= c && u[m - 1] != '\\'
  {
    var v := u[w + 1..];
    assert v[c - w - 1] == u[c];
    SpacesEnd(v, c - w - 1);
    assert Spaces(v) > 0 ==> u[w + Spaces(v)] == v[Spaces(v) - 1];
  }

  lemma CombinatorEnd(u: string, c: nat)
    requires c < |u| && u[c] == ','
    ensures var m := Combinator(u); m <= c && (m > 0 ==> u[m - 1] != '\\')
  {
    SpacesEnd(u, c);
    if IsRelative(u[Spaces(u)]) {
      SeparatorEnd(u, Spaces(u), c);
    }
  }

  lemma CombinatorStops(s: string, k: nat)
    requires FreeComma(s, 0, k)
    ensures FreeComma(s, Combinator(s), k)
  {
    CombinatorEnd(s, k);
    RunLater(s, 0, Combinator(s), k);
  }

  lemma FilterStops(s: string, k: nat, kind: Kind)
    requires FreeComma(s, 0, k) && FilterAt(s, kind).Some?
    ensures FreeComma(s, |FilterAt(s, kind).value.value|, k)
  {
    if kind == Tag {
      NameStops(s, 0, true, k);
      assert s[0..] == s;
    } else {
      RunLater(s, 0, 1, k);
      NameStops(s, 1, false, k);
    }
  }

  lemma TokenStops(s: string, k: nat)
    requires FreeComma(s, 0, k) && LexOne(s).Some?
    ensures FreeComma(s, |LexOne(s).value.value|, k)
  {
    if CombinatorAt(s).Some? {
      CombinatorStops(s, k);
    } else {
      FilterStops(s, k, LexOne(s).value.kind);
    }
  }

  /** The text ends in a comma that is not escaped, and whitespace. */
  ghost predicate EndsInComma(s: string) {
    exists k: nat | k < |s| :: FreeComma(s, 0, k) && Ends(s, k)
  }

  lemma {:induction false} RunShift(s: string, n: nat, k: nat)
    requires n <= k <= |s| && EvenRun(s, n, k)
    ensures EvenRun(s[n..], 0, k - n)
  {
    if n < k && s[k - 1] == '\\' {
      RunShift(s, n, k - 2);
    }
  }

  lemma EndLater(s: string, n: nat, k: nat)
    requires FreeComma(s, n, k) && Ends(s, k)
    ensures EndsInComma(s[n..])
  {
    RunShift(s, n, k);
    assert FreeComma(s[n..], 0, k - n) && Ends(s[n..], k - n);
  }

  lemma TokenLeavesEnd(s: string)
    requires EndsInComma(s) && LexOne(s).Some?
    ensures EndsInComma(s[|LexOne(s).value.value|..])
  {
    var k: nat :| k < |s| && FreeComma(s, 0, k) && Ends(s, k);
    TokenStops(s, k);
    EndLater(s, |LexOne(s).value.value|, k);
  }

  lemma LexRest(s: string, start: bool)
    requires !Stops(s, start)
    ensures Lex(s, start).1 == Lex(s[|LexOne(s).value.value|..], false).1
  {
  }

  /** The tokens of a group end before a comma that is not escaped. */
  lemma {:induction false} LexLeavesEnd(s: string, start: bool)
    requires EndsInComma(s)
    ensures EndsInComma(Lex(s, start).1)
    decreases |s|
  {
    if !Stops(s, start) {
      TokenLeavesEnd(s);
      LexRest(s, start);
      LexLeavesEnd(s[|LexOne(s).value.value|..], false);
    }
  }

  lemma {:induction false} AllSpaces(s: string)
    requires forall i | 0 <= i < |s| :: IsSpace(s[i])
    ensures Spaces(s) == |s|
  {
  }

  /** The first comma comes before the last one, or takes all that is left. */
  lemma CommaLeavesEnd(s: string)
    requires EndsInComma(s) && 0 < Comma(s) < |s|
    ensures EndsInComma(s[Comma(s)..])
  {
    var k: nat :| k < |s| && FreeComma(s, 0, k) && Ends(s, k);
    CommaBefore(s, k);
    RunLater(s, 0, Comma(s), k);
    EndLater(s, Comma(s), k);
  }

  lemma CommaBefore(s: string, k: nat)
    requires FreeComma(s, 0, k) && Ends(s, k) && Comma(s) > 0
    ensures Comma(s) == |s| || (Comma(s) <= k && s[Comma(s) - 1] != '\\')
  {
    var w := Spaces(s);
    SpacesEnd(s, k);
    if w < k {
      SeparatorEnd(s, w, k);
    } else {
      AllSpaces(s[w + 1..]);
    }
  }

  /** A selector that ends in a comma is rejected, whatever comes before, unless the comma is escaped. */
  lemma {:induction false} TrailingCommas(s: string)
    requires EndsInComma(s)
    ensures Groups(s) == None
    decreases |s|, 0
  {
    var (ts, rest) := Lex(s, true);
    LexLeavesEnd(s, true);
    if ts != [] {
      TailEnds(ts, rest);
    }
  }

  lemma {:induction false} TailEnds(g: seq<Token>, rest: string)
    requires EndsInComma(rest)
    ensures Tail(g, rest) == None
    decreases |rest|, 1
  {
    var m := Comma(rest);
    if m == |rest| {
      TrailingComma(rest);
    } else if m > 0 {
      CommaLeavesEnd(rest);
      TrailingCommas(rest[m..]);
    }
  }

  // The loop

  lemma {:induction false} ToSelectorMore(tokens: seq<Token>, t: Token)
    ensures ToSelector(tokens + [t]) == ToSelector(tokens) + t.value
  {
    if tokens != [] {
      assert (tokens + [t])[1..] == tokens[1..] + [t];
      ToSelectorMore(tokens[1..], t);
    }
  }

  method SelectorText(tokens: seq<Token>) returns (selector: string)
    ensures selector == ToSelector(tokens)
  {
    selector := "";
    for i := 0 to |tokens|
      invariant selector == ToSelector(tokens[..i])
    {
      ToSelectorMore(tokens[..i], tokens[i]);
      assert tokens[..i + 1] == tokens[..i] + [tokens[i]];
      selector := selector + tokens[i].value;
    }
    assert tokens[..|tokens|] == tokens;
  }

  function Prepend(done: seq<seq<Token>>, groups: Option<seq<seq<Token>>>): Option<seq<seq<Token>>> {
    if groups.None? then None else Some(done + groups.value)
  }

  /** All groups, as tokenizing goes on from `soFar` after the groups `done` and the `tokens` of the next one. */
  function Going(done: seq<seq<Token>>, tokens: seq<Token>, soFar: string): Option<seq<seq<Token>>> {
    if tokens == [] then Prepend(done, Groups(soFar))
    else Prepend(done, Middle(tokens, soFar))
  }

  function Middle(tokens: seq<Token>, soFar: string): Option<seq<seq<Token>>> {
    var (ts, rest) := Lex(soFar, false);
    Tail(tokens + ts, rest)
  }

  lemma PrependNothing(groups: Option<seq<seq<Token>>>)
    ensures Prepend([], groups) == groups
  {
    if groups.Some? {
      assert [] + groups.value == groups.value;
    }
  }

  lemma Finished(done: seq<seq<Token>>, tokens: seq<Token>)
    requires tokens != []
    ensures Going(done, tokens, "") == Some(done + [tokens])
  {
    assert tokens + [] == tokens;
  }

  lemma FilterIsToken(s: string, kind: Kind)
    requires FilterAt(s, kind).Some?
    ensures LexOne(s) == FilterAt(s, kind) && Comma(s) == 0
  {
  }

  lemma TakeFirst(done: seq<seq<Token>>, t: Token, tail: string)
    requires LexOne(t.value + tail) == Some(t)
    ensures Going(done, [], t.value + tail) == Going(done, [t], tail)
  {
    LexStep(t, tail, true);
  }

  lemma TokenIntoTail(tokens: seq<Token>, t: Token, ts: seq<Token>, rest: string)
    ensures Tail(tokens + ([t] + ts), rest) == Tail((tokens + [t]) + ts, rest)
  {
    assert tokens + ([t] + ts) == (tokens + [t]) + ts;
  }

  lemma TakeNext(tokens: seq<Token>, t: Token, tail: string)
    requires LexOne(t.value + tail) == Some(t) && Comma(t.value + tail) == 0
    ensures Middle(tokens, t.value + tail) == Middle(tokens + [t], tail)
  {
    var (ts, rest) := Lex(tail, false);
    LexStep(t, tail, false);
    TokenIntoTail(tokens, t, ts, rest);
  }

  lemma Take(done: seq<seq<Token>>, tokens: seq<Token>, t: Token, soFar: string)
    requires LexOne(soFar) == Some(t) && (tokens == [] || Comma(soFar) == 0)
    ensures Going(done, tokens, soFar) == Going(done, tokens + [t], soFar[|t.value|..])
  {
    var tail := soFar[|t.value|..];
    assert soFar == t.value + tail;
    if tokens == [] {
      TakeFirst(done, t, tail);
      assert tokens + [t] == [t];
    } else {
      TakeNext(tokens, t, tail);
    }
  }

  lemma AtComma(done: seq<seq<Token>>, tokens: seq<Token>, soFar: string)
    requires tokens != [] && Comma(soFar) > 0
    ensures var next := soFar[Comma(soFar)..];
            Going(done, tokens, soFar) == Going(done + [tokens], [], if next == "" then soFar else next)
  {
    var next := soFar[Comma(soFar)..];
    var later := Groups(if next == "" then soFar else next);
    assert Lex(soFar, false) == ([], soFar) && tokens + [] == tokens;
    if later.Some? {
      assert done + ([tokens] + later.value) == (done + [tokens]) + later.value;
    }
  }

  lemma Stuck(done: seq<seq<Token>>, tokens: seq<Token>, soFar: string)
    requires soFar != "" && LexOne(soFar).None? && (tokens == [] || Comma(soFar) == 0)
    ensures Going(done, tokens, soFar) == None
  {
  }

  /** The source's list of groups is `done` and, once the first run has begun, the list `tokens`. */
  method TokenizeText(selector: string) returns (groups: Option<seq<seq<Token>>>)
    ensures groups == Tokenize(selector)
  {
    var soFar := selector;
    var done: seq<seq<Token>>, tokens: seq<Token> := [], [];
    var matched := false;
    PrependNothing(Groups(selector));
    while soFar != ""
      invariant selector != "" ==> Going(done, tokens, soFar) == Tokenize(selector)
      invariant matched <==> tokens != []
      invariant selector == "" ==> soFar == "" && tokens == []
      invariant !matched ==> done == [] && soFar == selector
      decreases |soFar|
    {
      ghost var before := |soFar|;
      if matched && Comma(soFar) > 0 {
        AtComma(done, tokens, soFar);
        var next := soFar[Comma(soFar)..];
        soFar := if next == "" then soFar else next;
        done, tokens := done + [tokens], [];
      }
      matched := false;
      ghost var start := soFar;
      if CombinatorAt(soFar).Some? {
        Take(done, tokens, CombinatorAt(soFar).value, soFar);
        var t := CombinatorAt(soFar).value;
        matched, tokens, soFar := true, tokens + [t], soFar[|t.value|..];
      }
      matched, tokens, soFar := TakeFilters(done, matched, tokens, soFar);
      if !matched {
        Stuck(done, tokens, soFar);
        break;
      }
    }
    if soFar == "" && tokens != [] {
      Finished(done, tokens);
    }
    groups := if soFar != "" then None else if tokens == [] then Some([]) else Some(done + [tokens]);
  }

  /** The inner loop over the filters. */
  method TakeFilters(ghost done: seq<seq<Token>>, matched: bool, tokens: seq<Token>, soFar: string)
    returns (matched': bool, tokens': seq<Token>, soFar': string)
    ensures Going(done, tokens', soFar') == Going(done, tokens, soFar)
    ensures if tokens' == tokens then matched' == matched && soFar' == soFar
            else matched' && tokens' != [] && |soFar'| < |soFar|
    ensures tokens' == tokens ==> forall kind | kind in [Tag, Class, Id] :: FilterAt(soFar, kind).None?
  {
    matched', tokens', soFar' := matched, tokens, soFar;
    var types := [Tag, Class, Id];
    for i := 0 to |types|
      invariant Going(done, tokens', soFar') == Going(done, tokens, soFar)
      invariant |tokens'| >= |tokens|
      invariant if |tokens'| == |tokens| then matched' == matched && soFar' == soFar && tokens' == tokens
                else matched' && |soFar'| < |soFar|
      invariant tokens' == tokens ==> forall j | 0 <= j < i :: FilterAt(soFar, types[j]).None?
    {
      var found := FilterAt(soFar', types[i]);
      if found.Some? {
        FilterIsToken(soFar', types[i]);
        Take(done, tokens', found.value, soFar');
        matched', tokens', soFar' := true, tokens' + [found.value], soFar'[|found.value.value|..];
      }
    }
  }
}
