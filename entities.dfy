/**
 * The entity lump: the lexer that walks the text in place (lex_entities),
 * the parser that gathers `{ "key" "value" ... }` blocks into field lists
 * (entities_expect, parse_entities), and the two first-match lookups
 * (entity_get, entity_by_classname).
 *
 * The text is an array of characters, each standing for one byte of the
 * file. A field holds two positions in that array, as the source holds two
 * pointers; the characters up to the next NUL at a position are the string
 * the pointer denotes.
 */
module Entities {
  import opened Wrappers

  /** Token kind of a quoted string; every other token is the character itself. */
  const ENTITIES_STRING: int := 256

  predicate Space(c: char)
  {
    c == '\n' || c == '\t' || c == 11 as char || c == 12 as char || c == '\r' || c == ' '
  }

  /** The token kind of a character read as a signed byte. */
  function TokenOf(c: char): int
  {
    if c as int < 128 then c as int else c as int - 256
  }

  /** Every character stands for a byte. */
  predicate Bytes(s: seq<char>)
  {
    forall i | 0 <= i < |s| :: s[i] as int < 256
  }

  /** A NUL lies at or after position `p`, so a scan from `p` stays inside the text. */
  predicate NulAhead(s: seq<char>, p: nat)
  {
    exists i | p <= i < |s| :: s[i] == '\0'
  }

  /** The first quote or NUL at or after `i`: where a quoted string opened before `i` ends. */
  function QuoteEnd(s: seq<char>, i: nat): (j: nat)
    requires NulAhead(s, i)
    ensures i <= j < |s| && (s[j] == '"' || s[j] == '\0')
    ensures forall k | i <= k < j :: s[k] != '"' && s[k] != '\0'
    decreases |s| - i
  {
    if s[i] == '"' || s[i] == '\0' then i else QuoteEnd(s, i + 1)
  }

  /** The string a pointer denotes: the characters from `i` up to the next NUL. */
  function CString(s: seq<char>, i: nat): (r: seq<char>)
    ensures '\0' !in r
    decreases |s| - i
  {
    if i >= |s| || s[i] == '\0' then [] else [s[i]] + CString(s, i + 1)
  }

  // ---------------------------------------------------------------------
  // lex_entities

  /**
   * One call of the lexer from cursor `p`: the position of the token's first
   * character, its kind, the string pointer it sets (strings only), the
   * closing quote it overwrites with NUL (terminated strings only), the
   * cursor after it, and the newlines skipped before it.
   */
  datatype Lexed = Lexed(start: nat, kind: int, str: Option<nat>, closing: Option<nat>,
                         next: nat, lines: nat)

  /** The blanks skipped from `p`: where the token starts and how many newlines came before it. */
  datatype Blanks = Blanks(start: nat, lines: nat)

  function SkipBlanks(s: seq<char>, p: nat): (b: Blanks)
    requires NulAhead(s, p)
    ensures p <= b.start < |s| && NulAhead(s, b.start) && !Space(s[b.start])
    decreases |s| - p
  {
    if Space(s[p]) then
      var b := SkipBlanks(s, p + 1);
      if s[p] == '\n' then b.(lines := b.lines + 1) else b
    else Blanks(p, 0)
  }

  /** The token whose first character is at `q`, after `lines` newlines. */
  function TokenAt(s: seq<char>, q: nat, lines: nat): (r: Lexed)
    requires q < |s| && NulAhead(s, q)
    ensures r.start == q < r.next <= |s| && r.lines == lines
    ensures s[q] != '\0' ==> NulAhead(s, r.next)
    ensures s[q] == '\0' ==> r.kind == 0
    ensures r.closing.Some? ==> q < r.closing.value < r.next
  {
    if s[q] == '"' then
      var e := QuoteEnd(s, q + 1);
      if s[e] == '"' then Lexed(q, ENTITIES_STRING, Some(q + 1), Some(e), e + 1, lines)
      else Lexed(q, ENTITIES_STRING, Some(q + 1), None, e, lines)
    else
      Lexed(q, TokenOf(s[q]), None, None, q + 1, lines)
  }

  /** One call of lex_entities from cursor `p`. */
  function LexAt(s: seq<char>, p: nat): (r: Lexed)
    requires NulAhead(s, p)
    ensures p <= r.start < r.next <= |s|
    ensures s[r.start] != '\0' ==> NulAhead(s, r.next)
    ensures s[r.start] == '\0' ==> r.kind == 0
    ensures r.closing.Some? ==> r.start < r.closing.value < r.next
  {
    var b := SkipBlanks(s, p);
    TokenAt(s, b.start, b.lines)
  }

  /**
   * The lexer skips blanks, counting each newline once, and the token
   * starts at the first other character.
   */
  lemma {:induction false} LexSkipsBlanks(s: seq<char>, p: nat)
    requires NulAhead(s, p)
    ensures var b := SkipBlanks(s, p);
      && (forall k | p <= k < b.start :: Space(s[k]))
      && b.lines == multiset(s[p..b.start])['\n']
    decreases |s| - p
  {
    if Space(s[p]) {
      LexSkipsBlanks(s, p + 1);
      var b := SkipBlanks(s, p + 1);
      assert s[p..b.start] == [s[p]] + s[p + 1..b.start];
    } else {
      assert s[p..p] == [];
    }
  }

  /**
   * A quote opens a string that runs to the next quote, which is replaced
   * by NUL, or, unterminated, to the NUL, where the cursor then rests; any
   * other byte, the NUL included, is its own token and the cursor moves past
   * it. Only a quote gives a string and only the NUL gives token 0.
   */
  lemma LexToken(s: seq<char>, p: nat)
    requires NulAhead(s, p) && Bytes(s)
    ensures var r := LexAt(s, p);
      && (r.kind == ENTITIES_STRING <==> s[r.start] == '"')
      && (r.kind == 0 <==> s[r.start] == '\0')
      && (s[r.start] == '"' ==>
            && r.str == Some(r.start + 1)
            && var e := QuoteEnd(s, r.start + 1);
            && (s[e] == '"' ==> r.closing == Some(e) && r.next == e + 1)
            && (s[e] == '\0' ==> r.closing == None && r.next == e))
      && (s[r.start] != '"' ==> r.str == None && r.closing == None && r.next == r.start + 1)
  {
    var r := LexAt(s, p);
    assert s[r.start] as int < 256;
  }

  /** `a` and `b` have the same length and agree from position `p` on. */
  predicate SameFrom(a: seq<char>, b: seq<char>, p: nat)
  {
    |a| == |b| && p <= |a| && forall k | p <= k < |a| :: a[k] == b[k]
  }

  /** The lexer reads nothing before its cursor. */
  lemma {:induction false} SkipBlanksSuffix(a: seq<char>, b: seq<char>, p: nat)
    requires |a| == |b| && p <= |a| && NulAhead(a, p) && NulAhead(b, p)
    requires forall k | p <= k < |a| :: a[k] == b[k]
    ensures SkipBlanks(a, p) == SkipBlanks(b, p)
    decreases |a| - p
  {
    if Space(a[p]) {
      SkipBlanksSuffix(a, b, p + 1);
    }
  }

  lemma LexAtSuffix(a: seq<char>, b: seq<char>, p: nat)
    requires SameFrom(a, b, p) && NulAhead(a, p)
    ensures NulAhead(b, p) && LexAt(a, p) == LexAt(b, p)
  {
    SkipBlanksSuffix(a, b, p);
    var q := SkipBlanks(a, p).start;
    if a[q] == '"' {
      QuoteEndSame(a, b, p, q + 1);
    }
  }

  lemma {:induction false} QuoteEndSame(a: seq<char>, b: seq<char>, p: nat, i: nat)
    requires p <= i && |a| == |b| && NulAhead(a, i) && NulAhead(b, i)
    requires forall k | p <= k < |a| :: a[k] == b[k]
    ensures QuoteEnd(a, i) == QuoteEnd(b, i)
    decreases |a| - i
  {
    if !(a[i] == '"' || a[i] == '\0') {
      QuoteEndSame(a, b, p, i + 1);
    }
  }

  /**
   * Lexing a buffer whose unread part is still the original text gives the
   * token the text gives, and leaves the part after it unread and unchanged.
   */
  lemma LexFollowsText(text: seq<char>, buf: seq<char>, p: nat)
    requires SameFrom(buf, text, p) && NulAhead(text, p)
    ensures NulAhead(buf, p) && LexAt(buf, p) == LexAt(text, p)
    ensures var r := LexAt(text, p);
      SameFrom(if r.closing.Some? then buf[r.closing.value := '\0'] else buf, text, r.next)
  {
    LexAtSuffix(text, buf, p);
  }

  /**
   * The lexer overwrites at most one quote, and the string it reads is then
   * NUL-terminated where it ends in the text.
   */
  lemma LexLeavesStrings(text: seq<char>, buf: seq<char>, p: nat)
    requires SameFrom(buf, text, p) && NulAhead(text, p)
    ensures var r := LexAt(text, p);
      var after := if r.closing.Some? then buf[r.closing.value := '\0'] else buf;
      QuotesCleared(buf, after) && (r.str.Some? ==> Denotes(after, text, r.str.value))
  {
    var r := LexAt(text, p);
    var after := if r.closing.Some? then buf[r.closing.value := '\0'] else buf;
    var q := SkipBlanks(text, p).start;
    assert r == TokenAt(text, q, SkipBlanks(text, p).lines);
    if text[q] == '"' {
      var e := QuoteEnd(text, q + 1);
      assert text[e] == '"' ==> r.closing == Some(e);
      assert text[e] != '"' ==> r.closing == None && after == buf;
      assert after[e] == '\0';
      assert forall k | q + 1 <= k < e :: after[k] == text[k];
    }
  }

  /** `b` is `a` with some quotes overwritten by NUL and nothing else changed. */
  predicate QuotesCleared(a: seq<char>, b: seq<char>)
  {
    |a| == |b| && forall k | 0 <= k < |a| :: b[k] == a[k] || (a[k] == '"' && b[k] == '\0')
  }

  lemma QuotesClearedTransitive(a: seq<char>, b: seq<char>, c: seq<char>)
    requires QuotesCleared(a, b) && QuotesCleared(b, c)
    ensures QuotesCleared(a, c)
  {
  }

  /** The string of the text that a quote just before `j` opens: up to the next quote or NUL. */
  function Quoted(text: seq<char>, j: nat): (r: seq<char>)
    requires NulAhead(text, j)
    ensures '"' !in r && '\0' !in r
  {
    text[j..QuoteEnd(text, j)]
  }

  /**
   * Pointer `j` into `buf` denotes the quoted string of the text that starts
   * at `j`: the buffer agrees with the text up to where that string ends,
   * and holds a NUL there.
   */
  predicate Denotes(buf: seq<char>, text: seq<char>, j: nat)
  {
    && NulAhead(text, j) && |buf| == |text|
    && var q := QuoteEnd(text, j);
      buf[q] == '\0' && forall k | j <= k < q :: buf[k] == text[k]
  }

  /** The C string at a pointer that denotes a quoted string is that string. */
  lemma DenotesCString(buf: seq<char>, text: seq<char>, j: nat)
    requires Denotes(buf, text, j)
    ensures CString(buf, j) == Quoted(text, j)
  {
    CStringUpTo(buf, j, QuoteEnd(text, j));
  }

  lemma {:induction false} CStringUpTo(s: seq<char>, j: nat, q: nat)
    requires j <= q < |s| && s[q] == '\0' && forall k | j <= k < q :: s[k] != '\0'
    ensures CString(s, j) == s[j..q]
    decreases q - j
  {
    if j < q {
      CStringUpTo(s, j + 1, q);
      assert s[j..q] == [s[j]] + s[j + 1..q];
    }
  }

  /** Overwriting quotes keeps every denoted string: none of them contains a quote or its end. */
  lemma DenotesKept(a: seq<char>, b: seq<char>, text: seq<char>, j: nat)
    requires Denotes(a, text, j) && QuotesCleared(a, b)
    ensures Denotes(b, text, j)
  {
    var q := QuoteEnd(text, j);
    forall k | j <= k < q
      ensures b[k] == text[k]
    {
      assert a[k] == text[k];
    }
  }

  /** The lexer's state as the parser sees it: current token kind, string pointer, cursor. */
  datatype Token = Token(kind: int, str: nat, p: nat)

  predicate Lexable(text: seq<char>, t: Token)
  {
    t.p <= |text| && NulAhead(text, t.p)
  }

  /** The token after `t`, read from the text as loaded. */
  function Advance(text: seq<char>, t: Token): (u: Token)
    requires Lexable(text, t)
    ensures t.p < u.p <= |text|
    ensures u.kind != 0 ==> Lexable(text, u)
  {
    var r := LexAt(text, t.p);
    Token(r.kind, if r.str.Some? then r.str.value else t.str, r.next)
  }

  /** struct entities_lexer over the text it reads and overwrites. */
  class Lexer {
    var buf: array<char>
    var p: nat
    var tokenKind: int
    var str: nat
    var nLines: int
    /** The text as loaded, before any closing quote was overwritten. */
    ghost const text: seq<char>

    /** A zeroed lexer with its cursor at the start of `data`. */
    constructor (data: array<char>)
      requires Bytes(data[..])
      ensures buf == data && text == data[..]
      ensures p == 0 && tokenKind == 0 && str == 0 && nLines == 0
      ensures Valid()
    {
      buf := data;
      text := data[..];
      p := 0;
      tokenKind := 0;
      str := 0;
      nLines := 0;
    }

    function Current(): Token
      reads this
    {
      Token(tokenKind, str, p)
    }

    /**
     * The part of the buffer from the cursor on is still the text as loaded,
     * unless the last token was the end a NUL lies ahead, and the string
     * pointer of a string token denotes that string.
     */
    ghost predicate Valid()
      reads this, buf
    {
      && Bytes(text) && buf.Length == |text| && SameFrom(buf[..], text, p)
      && (tokenKind != 0 ==> Lexable(text, Token(tokenKind, str, p)))
      && (tokenKind == ENTITIES_STRING ==> Denotes(buf[..], text, str))
    }

    /** The blank-skipping loop of lex_entities (its `goto again`), without moving the cursor. */
    method FindTokenStart() returns (b: Blanks)
      requires NulAhead(buf[..], p)
      ensures b == SkipBlanks(buf[..], p)
    {
      ghost var s := buf[..];
      var at, lines := p, 0;
      while Space(buf[at])
        invariant NulAhead(s, at)
        invariant SkipBlanks(s, at).start == SkipBlanks(s, p).start
        invariant SkipBlanks(s, p).lines == SkipBlanks(s, at).lines + lines
        decreases buf.Length - at
      {
        if buf[at] == '\n' {
          lines := lines + 1;
        }
        at := at + 1;
      }
      b := Blanks(at, lines);
    }

    /** The string loop of lex_entities: the first quote or NUL from `from` on. */
    method FindQuoteEnd(from: nat) returns (e: nat)
      requires NulAhead(buf[..], from)
      ensures e == QuoteEnd(buf[..], from)
    {
      ghost var s := buf[..];
      e := from;
      while buf[e] != '"'
        invariant from <= e && NulAhead(s, e) && QuoteEnd(s, from) == QuoteEnd(s, e)
        decreases buf.Length - e
      {
        if buf[e] == '\0' {
          break;
        }
        e := e + 1;
      }
    }

    /**
     * The body of lex_entities on the buffer as it stands: skip blanks, read
     * one token, and overwrite the closing quote of a string with NUL.
     */
    method ReadToken()
      requires NulAhead(buf[..], p)
      modifies this`p, this`tokenKind, this`str, this`nLines, buf
      ensures var r := LexAt(old(buf[..]), old(p));
        && tokenKind == r.kind && p == r.next && nLines == old(nLines) + r.lines
        && str == (if r.str.Some? then r.str.value else old(str))
        && buf[..] == (if r.closing.Some? then old(buf[..])[r.closing.value := '\0'] else old(buf[..]))
    {
      var b := FindTokenStart();
      var at := b.start;
      if buf[at] == '"' {
        var e := FindQuoteEnd(at + 1);
        tokenKind, str := ENTITIES_STRING, at + 1;
        if buf[e] != '\0' {
          buf[e] := '\0';
          e := e + 1;
        }
        p := e;
      } else {
        tokenKind := TokenOf(buf[at]);
        p := at + 1;
      }
      nLines := nLines + b.lines;
    }

    /**
     * lex_entities: read the next token. The lexer moves to the token the
     * text gives, counts the newlines skipped, and overwrites the closing
     * quote of a string with NUL.
     */
    method Lex() returns (kind: int)
      requires Valid() && Lexable(text, Token(tokenKind, str, p))
      modifies this`p, this`tokenKind, this`str, this`nLines, buf
      ensures Valid() && kind == tokenKind
      ensures Token(tokenKind, str, p) == Advance(text, old(Token(tokenKind, str, p)))
      ensures var r := LexAt(text, old(p));
        && nLines == old(nLines) + r.lines
        && buf[..] == (if r.closing.Some? then old(buf[..])[r.closing.value := '\0'] else old(buf[..]))
      ensures QuotesCleared(old(buf[..]), buf[..])
    {
      LexFollowsText(text, buf[..], p);
      LexLeavesStrings(text, buf[..], p);
      LexToken(text, p);
      ReadToken();
      kind := tokenKind;
    }

    /** entities_expect: on the expected token read the next one and succeed; otherwise change nothing. */
    method Expect(kind: int) returns (ok: bool)
      requires Valid() && kind != 0
      modifies this`p, this`tokenKind, this`str, this`nLines, buf
      ensures Valid()
      ensures ok == (old(tokenKind) == kind)
      ensures ok ==> Current() == Advance(text, old(Current()))
      ensures ok ==> var r := LexAt(text, old(p));
        && nLines == old(nLines) + r.lines
        && buf[..] == (if r.closing.Some? then old(buf[..])[r.closing.value := '\0'] else old(buf[..]))
      ensures QuotesCleared(old(buf[..]), buf[..])
      ensures !ok ==> unchanged(this) && unchanged(buf)
    {
      if tokenKind != kind {
        return false;
      }
      var _ := Lex();
      return true;
    }

    /**
     * One pass of the field loop of parse_entities, from a string token (the
     * key): read the next token, which must be a string (the value), then
     * the token after it. `ok` is false when the value is missing.
     */
    method ReadField() returns (f: Field, ok: bool)
      requires Valid() && tokenKind == ENTITIES_STRING
      modifies this`p, this`tokenKind, this`str, this`nLines, buf
      ensures Valid() && QuotesCleared(old(buf[..]), buf[..])
      ensures var v := Advance(text, old(Current()));
        && ok == (v.kind == ENTITIES_STRING)
        && (!ok ==> Current() == v)
        && (ok ==> Current() == Advance(text, v) && f == Field(old(str), v.str))
      ensures ok ==> Denotes(buf[..], text, f.key) && Denotes(buf[..], text, f.value)
    {
      var key := str;
      ghost var start := buf[..];
      var _ := Lex();
      DenotesKept(start, buf[..], text, key);
      if tokenKind != ENTITIES_STRING {
        return Field(key, key), false;
      }
      f := Field(key, str);
      ghost var before := buf[..];
      var _ := Lex();
      DenotesKept(before, buf[..], text, f.key);
      DenotesKept(before, buf[..], text, f.value);
      QuotesClearedTransitive(start, before, buf[..]);
      ok := true;
    }

    /**
     * The field loop of parse_entities: gather key/value pairs while the
     * current token is a string. `complete` is false when a key has no
     * string after it, where parse_entities gives up.
     */
    method ReadFields() returns (fields: seq<Field>, complete: bool)
      requires Valid()
      modifies this`p, this`tokenKind, this`str, this`nLines, buf
      ensures Valid() && QuotesCleared(old(buf[..]), buf[..])
      ensures ScanFields(text, old(Current()), []) == if complete then Closed(Current(), fields) else Abandoned
      ensures FieldsDenote(buf[..], text, fields)
    {
      ghost var goal := ScanFields(text, Current(), []);
      ghost var start := buf[..];
      fields := [];
      while tokenKind == ENTITIES_STRING
        invariant Valid() && old(p) <= p
        invariant ScanFields(text, Current(), fields) == goal
        invariant QuotesCleared(start, buf[..]) && FieldsDenote(buf[..], text, fields)
        decreases |text| - p
      {
        ghost var before := buf[..];
        var f, ok := ReadField();
        FieldsKept(before, buf[..], text, fields);
        QuotesClearedTransitive(start, before, buf[..]);
        if !ok {
          return fields, false;
        }
        FieldsDenoteAppend(buf[..], text, fields, f);
        fields := fields + [f];
      }
      complete := true;
    }
  }

  // ---------------------------------------------------------------------
  // parse_entities

  /** One key/value pair: the positions of the two strings in the text. */
  datatype Field = Field(key: nat, value: nat)

  /** How the field loop of one block ends: abandoned on a key without a value, or at a non-string token. */
  datatype FieldScan = Abandoned | Closed(t: Token, fields: seq<Field>)

  /** The field loop of parse_entities from token `t`, with `fields` gathered so far. */
  function ScanFields(text: seq<char>, t: Token, fields: seq<Field>): (r: FieldScan)
    requires t.p <= |text| && (t.kind != 0 ==> Lexable(text, t))
    ensures r.Closed? ==> t.p <= r.t.p <= |text| && (r.t.kind != 0 ==> Lexable(text, r.t))
    ensures r.Closed? ==> r.t.kind != ENTITIES_STRING
    ensures r.Closed? ==> |fields| <= |r.fields| && r.fields[..|fields|] == fields
    decreases |text| - t.p
  {
    if t.kind != ENTITIES_STRING then Closed(t, fields)
    else
      var v := Advance(text, t);
      if v.kind != ENTITIES_STRING then Abandoned
      else ScanFields(text, Advance(text, v), fields + [Field(t.str, v.str)])
  }

  /** The block loop from token `t`: a block must open with '{'; anything else ends the parse. */
  function Blocks(text: seq<char>, t: Token, ents: seq<seq<Field>>): (r: seq<seq<Field>>)
    requires t.p <= |text| && (t.kind != 0 ==> Lexable(text, t))
    ensures |ents| <= |r| && r[..|ents|] == ents
    decreases |text| - t.p, 1
  {
    if t.kind != '{' as int then ents
    else Close(text, ScanFields(text, Advance(text, t), []), ents)
  }

  /**
   * The end of a block after its field loop: the block is appended unless
   * the loop was abandoned, then a '}' must follow, and the parse goes on
   * unless the token after it is the end of the text.
   */
  function Close(text: seq<char>, s: FieldScan, ents: seq<seq<Field>>): (r: seq<seq<Field>>)
    requires s.Closed? ==> s.t.p <= |text| && (s.t.kind != 0 ==> Lexable(text, s.t))
    ensures |ents| <= |r| && r[..|ents|] == ents
    decreases if s.Closed? then |text| - s.t.p else 0, 0
  {
    match s
    case Abandoned => ents
    case Closed(u, fields) =>
      if u.kind != '}' as int then ents + [fields]
      else
        var v := Advance(text, u);
        if v.kind == 0 then ents + [fields] else Blocks(text, v, ents + [fields])
  }

  /** Every key and value pointer of `fields` denotes its quoted string. */
  predicate FieldsDenote(buf: seq<char>, text: seq<char>, fields: seq<Field>)
  {
    forall i | 0 <= i < |fields| :: Denotes(buf, text, fields[i].key) && Denotes(buf, text, fields[i].value)
  }

  predicate EntitiesDenote(buf: seq<char>, text: seq<char>, ents: seq<seq<Field>>)
  {
    forall i | 0 <= i < |ents| :: FieldsDenote(buf, text, ents[i])
  }

  lemma FieldsDenoteAppend(buf: seq<char>, text: seq<char>, fields: seq<Field>, f: Field)
    requires FieldsDenote(buf, text, fields) && Denotes(buf, text, f.key) && Denotes(buf, text, f.value)
    ensures FieldsDenote(buf, text, fields + [f])
  {
  }

  lemma EntitiesDenoteAppend(buf: seq<char>, text: seq<char>, ents: seq<seq<Field>>, fields: seq<Field>)
    requires EntitiesDenote(buf, text, ents) && FieldsDenote(buf, text, fields)
    ensures EntitiesDenote(buf, text, ents + [fields])
  {
  }

  lemma FieldsKept(a: seq<char>, b: seq<char>, text: seq<char>, fields: seq<Field>)
    requires FieldsDenote(a, text, fields) && QuotesCleared(a, b)
    ensures FieldsDenote(b, text, fields)
  {
    forall i | 0 <= i < |fields|
      ensures Denotes(b, text, fields[i].key) && Denotes(b, text, fields[i].value)
    {
      DenotesKept(a, b, text, fields[i].key);
      DenotesKept(a, b, text, fields[i].value);
    }
  }

  /** Overwriting quotes keeps every string gathered so far. */
  lemma StringsKept(a: seq<char>, b: seq<char>, text: seq<char>, ents: seq<seq<Field>>, fields: seq<Field>)
    requires EntitiesDenote(a, text, ents) && FieldsDenote(a, text, fields) && QuotesCleared(a, b)
    ensures EntitiesDenote(b, text, ents) && FieldsDenote(b, text, fields)
  {
    FieldsKept(a, b, text, fields);
    forall i | 0 <= i < |ents|
      ensures FieldsDenote(b, text, ents[i])
    {
      FieldsKept(a, b, text, ents[i]);
    }
  }

  /** parse_entities on the text `text`, which holds a NUL. */
  function ParseOf(text: seq<char>): seq<seq<Field>>
    requires NulAhead(text, 0)
  {
    Blocks(text, Advance(text, Token(0, 0, 0)), [])
  }

  /** A block whose closing brace is missing is still kept: the fields are appended before '}' is expected. */
  lemma UnclosedBlockKept(text: seq<char>)
    requires text == ['{', '"', 'a', '"', ' ', '"', 'b', '"', '\0']
    ensures NulAhead(text, 0) && ParseOf(text) == [[Field(2, 6)]]
  {
    assert NulAhead(text, 0) && NulAhead(text, 8) by { assert text[8] == '\0'; }
    var t := Advance(text, Token(0, 0, 0));
    assert t == Token('{' as int, 0, 1) by {
      assert SkipBlanks(text, 0) == Blanks(0, 0);
    }
    var k := Advance(text, t);
    assert k == Token(ENTITIES_STRING, 2, 4) by {
      assert SkipBlanks(text, 1) == Blanks(1, 0);
      assert QuoteEnd(text, 2) == 3;
    }
    var v := Advance(text, k);
    assert v == Token(ENTITIES_STRING, 6, 8) by {
      assert SkipBlanks(text, 4) == Blanks(5, 0);
      assert QuoteEnd(text, 6) == 7;
    }
    var u := Advance(text, v);
    assert u == Token(0, 6, 9) by {
      assert SkipBlanks(text, 8) == Blanks(8, 0);
    }
    assert ScanFields(text, k, []) == Closed(u, [Field(2, 6)]);
    assert ParseOf(text) == Close(text, Closed(u, [Field(2, 6)]), []);
  }

  /** A key without a value ends the parse, and the block it was in is dropped. */
  lemma MissingValueDropsBlock(text: seq<char>)
    requires text == ['{', '"', 'a', '"', '}', '\0']
    ensures NulAhead(text, 0) && ParseOf(text) == []
  {
    assert NulAhead(text, 0) && NulAhead(text, 5) by { assert text[5] == '\0'; }
    var t := Advance(text, Token(0, 0, 0));
    assert t == Token('{' as int, 0, 1) by {
      assert SkipBlanks(text, 0) == Blanks(0, 0);
    }
    var k := Advance(text, t);
    assert k == Token(ENTITIES_STRING, 2, 4) by {
      assert SkipBlanks(text, 1) == Blanks(1, 0);
      assert QuoteEnd(text, 2) == 3;
    }
    assert Advance(text, k) == Token('}' as int, 2, 5) by {
      assert SkipBlanks(text, 4) == Blanks(4, 0);
    }
    assert ScanFields(text, k, []) == Abandoned;
    assert ParseOf(text) == Close(text, Abandoned, []);
  }

  /**
   * A block whose field loop closes is appended with exactly the fields its
   * loop gathered; without a '}' after it the parse ends there, with one it
   * ends at the end of the text and otherwise goes on to the next block.
   */
  lemma BlockAppended(text: seq<char>, t: Token, ents: seq<seq<Field>>, u: Token, fields: seq<Field>)
    requires Lexable(text, t) && t.kind == '{' as int
    requires ScanFields(text, Advance(text, t), []) == Closed(u, fields)
    ensures |Blocks(text, t, ents)| > |ents| && Blocks(text, t, ents)[|ents|] == fields
    ensures u.kind != '}' as int ==> Blocks(text, t, ents) == ents + [fields]
    ensures u.kind == '}' as int ==>
      var v := Advance(text, u);
      && (v.kind == 0 ==> Blocks(text, t, ents) == ents + [fields])
      && (v.kind != 0 ==> Blocks(text, t, ents) == Blocks(text, v, ents + [fields]))
  {
  }

  /** A block whose field loop is abandoned (a key without a value) ends the parse and is dropped. */
  lemma AbandonedBlockDropped(text: seq<char>, t: Token, ents: seq<seq<Field>>)
    requires Lexable(text, t) && t.kind == '{' as int
    requires ScanFields(text, Advance(text, t), []) == Abandoned
    ensures Blocks(text, t, ents) == ents
  {
  }

  // ---------------------------------------------------------------------
  // entity_get, entity_by_classname

  /** strcmp of a field's key, read in `buf`, against the C string `key` finds them equal. */
  predicate KeyIs(buf: seq<char>, f: Field, key: seq<char>)
  {
    CString(buf, f.key) == CString(key, 0)
  }

  /** The value pointer of the first field of `entity` whose key is `key`. */
  function Lookup(buf: seq<char>, entity: seq<Field>, key: seq<char>): Option<nat>
  {
    if |entity| == 0 then None
    else if KeyIs(buf, entity[0], key) then Some(entity[0].value)
    else Lookup(buf, entity[1..], key)
  }

  /**
   * A lookup fails exactly when no field has the key, and otherwise gives
   * the value of the first field that has it.
   */
  lemma {:induction false} LookupFirst(buf: seq<char>, entity: seq<Field>, key: seq<char>)
    ensures Lookup(buf, entity, key).None? <==> forall i | 0 <= i < |entity| :: !KeyIs(buf, entity[i], key)
    ensures Lookup(buf, entity, key).Some? ==>
      exists i | 0 <= i < |entity| ::
        && KeyIs(buf, entity[i], key) && Lookup(buf, entity, key).value == entity[i].value
        && forall j | 0 <= j < i :: !KeyIs(buf, entity[j], key)
    decreases |entity|
  {
    if |entity| > 0 && !KeyIs(buf, entity[0], key) {
      var rest := entity[1..];
      LookupFirst(buf, rest, key);
      if Lookup(buf, rest, key).Some? {
        var i :| 0 <= i < |rest| && KeyIs(buf, rest[i], key) && Lookup(buf, rest, key).value == rest[i].value
                 && forall j | 0 <= j < i :: !KeyIs(buf, rest[j], key);
        assert entity[i + 1] == rest[i];
        assert forall j | 0 <= j < i + 1 :: !KeyIs(buf, entity[j], key) by {
          forall j | 0 < j < i + 1
            ensures !KeyIs(buf, entity[j], key)
          {
            assert entity[j] == rest[j - 1];
          }
        }
      } else {
        forall i | 0 <= i < |entity|
          ensures !KeyIs(buf, entity[i], key)
        {
          if i > 0 {
            assert entity[i] == rest[i - 1];
          }
        }
      }
    }
  }

  /**
   * In a buffer the parser has finished with, the key and value of a parsed
   * field read as the quoted strings of the text: a key matches exactly
   * when its quoted text is the key sought.
   */
  lemma ParsedField(buf: seq<char>, text: seq<char>, fields: seq<Field>, i: nat, key: seq<char>)
    requires FieldsDenote(buf, text, fields) && i < |fields|
    ensures KeyIs(buf, fields[i], key) <==> Quoted(text, fields[i].key) == CString(key, 0)
    ensures CString(buf, fields[i].value) == Quoted(text, fields[i].value)
  {
    DenotesCString(buf, text, fields[i].key);
    DenotesCString(buf, text, fields[i].value);
  }

  /** entity_get: the value pointer of the first field of `entity` whose key is `key`. */
  method EntityGet(buf: array<char>, entity: seq<Field>, key: seq<char>) returns (r: Option<nat>)
    ensures r == Lookup(buf[..], entity, key)
  {
    for i := 0 to |entity|
      invariant Lookup(buf[..], entity[i..], key) == Lookup(buf[..], entity, key)
    {
      assert entity[i..][1..] == entity[i + 1..];
      if CString(buf[..], entity[i].key) == CString(key, 0) {
        return Some(entity[i].value);
      }
    }
    return None;
  }

  const CLASSNAME: seq<char> := "classname"

  /** The entity has a "classname" field whose value is the C string `classname`. */
  predicate Classnamed(buf: seq<char>, entity: seq<Field>, classname: seq<char>)
  {
    var v := Lookup(buf, entity, CLASSNAME);
    v.Some? && CString(buf, v.value) == CString(classname, 0)
  }

  /** None of the first `n` entities has the class name `classname`. */
  predicate NoneClassnamed(buf: seq<char>, ents: seq<seq<Field>>, n: nat, classname: seq<char>)
    requires n <= |ents|
  {
    forall j | 0 <= j < n :: !Classnamed(buf, ents[j], classname)
  }

  lemma NoneClassnamedStep(buf: seq<char>, ents: seq<seq<Field>>, n: nat, classname: seq<char>)
    requires n < |ents| && NoneClassnamed(buf, ents, n, classname) && !Classnamed(buf, ents[n], classname)
    ensures NoneClassnamed(buf, ents, n + 1, classname)
  {
  }

  /** The global entity list. */
  class EntityList {
    var entities: seq<seq<Field>>

    constructor ()
      ensures entities == []
    {
      entities := [];
    }

    /** entity_by_classname: the first entity whose "classname" value is `classname`. */
    method EntityByClassname(buf: array<char>, classname: seq<char>) returns (r: Option<seq<Field>>)
      ensures r.None? <==> NoneClassnamed(buf[..], entities, |entities|, classname)
      ensures r.Some? ==>
        exists i | 0 <= i < |entities| ::
          && r.value == entities[i] && Classnamed(buf[..], entities[i], classname)
          && NoneClassnamed(buf[..], entities, i, classname)
    {
      for i := 0 to |entities|
        invariant NoneClassnamed(buf[..], entities, i, classname)
      {
        var current := EntityGet(buf, entities[i], CLASSNAME);
        if current.Some? && CString(buf[..], current.value) == CString(classname, 0) {
          return Some(entities[i]);
        }
        NoneClassnamedStep(buf[..], entities, i, classname);
      }
      return None;
    }

    /**
     * parse_entities: drop the old list, then parse `data` in place, which
     * leaves NULs where the closing quotes were.
     */
    method ParseEntities(data: array<char>)
      requires NulAhead(data[..], 0) && Bytes(data[..])
      modifies this, data
      ensures entities == ParseOf(old(data[..]))
      ensures QuotesCleared(old(data[..]), data[..])
      ensures EntitiesDenote(data[..], old(data[..]), entities)
    {
      ghost var text := data[..];
      ghost var goal := ParseOf(text);
      entities := [];
      var lex := new Lexer(data);
      var _ := lex.Lex();

      while true
        invariant lex.buf == data && lex.text == text && lex.Valid()
        invariant Blocks(text, lex.Current(), entities) == goal
        invariant QuotesCleared(text, data[..]) && EntitiesDenote(data[..], text, entities)
        decreases |text| - lex.p
      {
        ghost var before := data[..];
        var ok := lex.Expect('{' as int);
        StringsKept(before, data[..], text, entities, []);
        QuotesClearedTransitive(text, before, data[..]);
        if !ok {
          return;
        }

        before := data[..];
        var fields, complete := lex.ReadFields();
        StringsKept(before, data[..], text, entities, []);
        QuotesClearedTransitive(text, before, data[..]);
        if !complete {
          return;
        }

        EntitiesDenoteAppend(data[..], text, entities, fields);
        entities := entities + [fields];
        before := data[..];
        ok := lex.Expect('}' as int);
        StringsKept(before, data[..], text, entities, []);
        QuotesClearedTransitive(text, before, data[..]);
        if !ok {
          return;
        }
        if lex.tokenKind == 0 {
          return;
        }
      }
    }
  }
}
