/**
 * What the detector reads, against what the bytes of a text spell.
 *
 * `Spells` says which strings a sequence of pieces is a legal way to write. The detector takes
 * raw bytes one at a time, so it reads a string as what it spells only when the raw bytes are
 * ASCII; `SpelledStringIsRead` says so exactly, and `VerdictOnNames` says for which objects the
 * comparison of names is right nevertheless.
 */
module Spelling {
  import opened Wrappers
  import opened Ordering
  import opened JsonGrammar
  import opened KeyDetector
  import opened DetectorTheorems
  import Utf8

  // ---- Which strings the pieces spell ----

  function RawBytes(bytes: seq<Utf8.Byte>): (ps: seq<Piece>) {
    seq(|bytes|, i requires 0 <= i < |bytes| => Raw(bytes[i] as char))
  }

  /** The escape `p` stands for the character `c`. */
  predicate Escapes(p: Piece, c: char)
    requires PieceOk(p)
  {
    match p
    case Raw(_) => false
    case Short(letter) => ShortMeaning(letter) == c
    case Unicode(h0, h1, h2, h3) => CodeUnit(h0, h1, h2, h3) == c as int
  }

  /** Two escapes are the UTF-16 surrogate pair of `c` (RFC 8259, section 7). */
  predicate EscapesPair(high: Piece, low: Piece, c: char)
    requires PieceOk(high) && PieceOk(low)
  {
    && high.Unicode? && low.Unicode?
    && var h, l := CodeUnit(high.a, high.b, high.c, high.d), CodeUnit(low.a, low.b, low.c, low.d);
       && 0xD800 <= h < 0xDC00 <= l < 0xE000
       && c as int == 0x1_0000 + (h - 0xD800) * 0x400 + (l - 0xDC00)
  }

  /**
   * `ps` is one of the legal ways to write `text` in a UTF-8 encoded JSON text: each character
   * as its own bytes, as an escape, or as an escaped surrogate pair.
   */
  predicate Spells(ps: seq<Piece>, text: string)
    requires PiecesOk(ps)
  {
    if text == "" then ps == []
    else
      var raw := RawBytes(Utf8.EncodeChar(text[0]));
      || (ps != [] && Escapes(ps[0], text[0]) && Spells(ps[1..], text[1..]))
      || (|ps| >= 2 && EscapesPair(ps[0], ps[1], text[0]) && Spells(ps[2..], text[1..]))
      || (raw <= ps && Spells(ps[|raw|..], text[1..]))
  }

  /** Every character that is not escaped is ASCII. */
  predicate RawAscii(ps: seq<Piece>) {
    forall i :: 0 <= i < |ps| && ps[i].Raw? ==> ps[i].c < '\U{80}'
  }

  /** Every hexadecimal escape is of an ASCII character. */
  predicate EscapesAscii(ps: seq<Piece>)
    requires PiecesOk(ps)
  {
    forall i :: 0 <= i < |ps| && ps[i].Unicode? ==> CodeUnit(ps[i].a, ps[i].b, ps[i].c, ps[i].d) < 0x80
  }

  // ---- Reading a string back ----

  lemma RestWithoutSurrogate(ps: seq<Piece>, k: nat)
    requires PiecesOk(ps) && !HasSurrogate(ps) && k <= |ps|
    ensures !HasSurrogate(ps[k..])
  {
    forall i | 0 <= i < |ps[k..]| ensures !IsSurrogate(ps[k..][i]) {
      assert ps[k..][i] == ps[k + i];
    }
  }

  /** Without surrogates the first character is its own bytes or one escape, as the first piece tells. */
  lemma SpellsFirst(ps: seq<Piece>, text: string)
    requires PiecesOk(ps) && Spells(ps, text) && !HasSurrogate(ps) && text != ""
    ensures var raw := RawBytes(Utf8.EncodeChar(text[0]));
            && ps != [] && |raw| <= 4
            && (ps[0].Raw? ==> raw <= ps && Spells(ps[|raw|..], text[1..]))
            && (!ps[0].Raw? ==> Escapes(ps[0], text[0]) && Spells(ps[1..], text[1..]))
            && (RawAscii(raw) <==> |raw| == 1) && (|raw| == 1 ==> raw == [Raw(text[0])])
  {
    var raw := RawBytes(Utf8.EncodeChar(text[0]));
    assert raw[0].Raw? && (|raw| > 1 ==> raw[0].c >= '\U{80}');
    if |ps| >= 2 && EscapesPair(ps[0], ps[1], text[0]) {
      assert IsSurrogate(ps[0]);
    }
  }

  /** A string takes at least as many pieces as characters, and no more exactly when its raw bytes are ASCII. */
  lemma {:induction false} SpellingLength(ps: seq<Piece>, text: string)
    requires PiecesOk(ps) && Spells(ps, text) && !HasSurrogate(ps)
    ensures |text| <= |ps|
    ensures |text| == |ps| <==> RawAscii(ps)
    decreases |text|
  {
    hide HasSurrogate, Escapes, EscapesPair;
    if text != "" {
      SpellsFirst(ps, text);
      var raw := RawBytes(Utf8.EncodeChar(text[0]));
      var k := if ps[0].Raw? then |raw| else 1;
      RestWithoutSurrogate(ps, k);
      SpellingLength(ps[k..], text[1..]);
      RawAsciiSplit(ps, k);
      assert ps[0].Raw? ==> ps[..k] == raw;
    }
  }

  lemma RawAsciiSplit(ps: seq<Piece>, k: nat)
    requires k <= |ps|
    ensures RawAscii(ps) <==> RawAscii(ps[..k]) && RawAscii(ps[k..])
  {
    assert ps == ps[..k] + ps[k..];
    if RawAscii(ps) {
      forall i | 0 <= i < |ps[k..]| && ps[k..][i].Raw? ensures ps[k..][i].c < '\U{80}' {
        assert ps[k + i].c < '\U{80}';
      }
    }
  }

  lemma {:induction false} RawAsciiReads(ps: seq<Piece>, text: string)
    requires PiecesOk(ps) && Spells(ps, text) && !HasSurrogate(ps) && RawAscii(ps)
    ensures Decode(ps) == text
    decreases |text|
  {
    hide HasSurrogate, EscapesPair;
    if text != "" {
      SpellsFirst(ps, text);
      var raw := RawBytes(Utf8.EncodeChar(text[0]));
      RestWithoutSurrogate(ps, 1);
      RawAsciiSplit(ps, 1);
      if ps[0].Raw? {
        RawAsciiSplit(ps, |raw|);
        assert ps[..|raw|] == raw;
      }
      RawAsciiReads(ps[1..], text[1..]);
    }
  }

  lemma {:induction false} DecodeLength(ps: seq<Piece>)
    requires PiecesOk(ps)
    ensures |Decode(ps)| == |ps|
    decreases |ps|
  {
    if ps != [] {
      DecodeLength(ps[1..]);
    }
  }

  /**
   * Parsing undoes the escaping of RFC 8259, section 7, exactly when every character that is not
   * escaped is ASCII and no surrogate is escaped: then, and only then, the quoted text reads as the
   * string it spells, and the index stops just past the closing quote.
   */
  lemma SpelledStringIsRead(s: Bytes, i: nat, ps: seq<Piece>, text: string)
    requires PiecesOk(ps) && Spells(ps, text) && QuotedAt(s, i, ps)
    ensures ScanString(s, i) == Good(text, i + QuotedLength(ps)) <==> RawAscii(ps) && !HasSurrogate(ps)
  {
    hide HasSurrogate, ScanString, QuotedAt, RawAscii, Spells;
    ScanQuoted(s, i, ps);
    if !HasSurrogate(ps) {
      SpellingLength(ps, text);
      DecodeLength(ps);
      if RawAscii(ps) {
        RawAsciiReads(ps, text);
      }
    }
  }

  predicate IsAscii(text: string) {
    forall i :: 0 <= i < |text| ==> text[i] < '\U{80}'
  }

  lemma {:induction false} AsciiSpelling(ps: seq<Piece>, text: string)
    requires PiecesOk(ps) && Spells(ps, text) && IsAscii(text)
    ensures !HasSurrogate(ps) && RawAscii(ps)
    decreases |text|
  {
    if text != "" {
      var raw := RawBytes(Utf8.EncodeChar(text[0]));
      if !(Escapes(ps[0], text[0]) && Spells(ps[1..], text[1..])) {
        assert raw == [Raw(text[0])] && ps[0] == raw[0];
      }
      AsciiSpelling(ps[1..], text[1..]);
      SurrogateCons(ps);
      RawAsciiSplit(ps, 1);
    }
  }

  /** In particular every ASCII string is read back, however it is written. */
  lemma AsciiStringIsRead(s: Bytes, i: nat, ps: seq<Piece>, text: string)
    requires PiecesOk(ps) && Spells(ps, text) && IsAscii(text) && QuotedAt(s, i, ps)
    ensures ScanString(s, i) == Good(text, i + QuotedLength(ps))
  {
    hide Spells, ScanString, QuotedAt;
    AsciiSpelling(ps, text);
    SpelledStringIsRead(s, i, ps, text);
  }

  // ---- The names that members spell ----

  /** Two names that can be written for the same string. */
  ghost predicate SameName(ps: seq<Piece>, qs: seq<Piece>)
    requires PiecesOk(ps) && PiecesOk(qs)
  {
    exists text :: Spells(ps, text) && Spells(qs, text)
  }

  ghost predicate Spellable(ps: seq<Piece>)
    requires PiecesOk(ps)
  {
    exists text :: Spells(ps, text)
  }

  lemma {:induction false} SpellsDecode(ps: seq<Piece>)
    requires PiecesOk(ps) && RawAscii(ps) && !HasSurrogate(ps)
    ensures Spells(ps, Decode(ps))
    decreases |ps|
  {
    if ps != [] {
      RestWithoutSurrogate(ps, 1);
      RawAsciiSplit(ps, 1);
      SpellsDecode(ps[1..]);
      assert !IsSurrogate(ps[0]);
      var c := Meaning(ps[0]);
      assert Decode(ps)[1..] == Decode(ps[1..]);
      if ps[0].Raw? {
        assert RawBytes(Utf8.EncodeChar(c)) == [Raw(c)];
      } else {
        assert Escapes(ps[0], c);
      }
    }
  }

  /** The detector compares names with ASCII raw bytes as the strings they spell. */
  lemma SameIfRawAscii(ps: seq<Piece>, qs: seq<Piece>)
    requires PiecesOk(ps) && PiecesOk(qs) && !HasSurrogate(ps) && !HasSurrogate(qs)
    requires RawAscii(ps) && RawAscii(qs)
    ensures SameName(ps, qs) <==> Decode(ps) == Decode(qs)
  {
    hide HasSurrogate, RawAscii, Spells;
    SpellsDecode(ps);
    SpellsDecode(qs);
    if text :| Spells(ps, text) && Spells(qs, text) {
      RawAsciiReads(ps, text);
      RawAsciiReads(qs, text);
    }
  }

  /** The characters with the numbers of these bytes. */
  function Chars(bytes: seq<Utf8.Byte>): string {
    seq(|bytes|, i requires 0 <= i < |bytes| => bytes[i] as char)
  }

  lemma CharsAppend(a: seq<Utf8.Byte>, b: seq<Utf8.Byte>)
    ensures Chars(a + b) == Chars(a) + Chars(b)
  {
  }

  lemma EscapeReadsByte(p: Piece, c: char)
    requires PieceOk(p) && Escapes(p, c) && (p.Unicode? ==> CodeUnit(p.a, p.b, p.c, p.d) < 0x80)
    ensures [Meaning(p)] == Chars(Utf8.EncodeChar(c))
  {
    assert c < '\U{80}';
    assert Utf8.EncodeChar(c) == [c as int];
  }

  /** Without escapes of surrogates the second way to spell a character is out. */
  lemma FirstSpelled(ps: seq<Piece>, text: string)
    requires PiecesOk(ps) && Spells(ps, text) && EscapesAscii(ps) && text != ""
    ensures var raw := RawBytes(Utf8.EncodeChar(text[0]));
            && ps != []
            && ((Escapes(ps[0], text[0]) && Spells(ps[1..], text[1..]))
                || (raw <= ps && Spells(ps[|raw|..], text[1..])))
  {
  }

  /** A name whose hexadecimal escapes are ASCII is read as the bytes of the string it spells. */
  lemma {:induction false} ReadsBytes(ps: seq<Piece>, text: string)
    requires PiecesOk(ps) && Spells(ps, text) && EscapesAscii(ps)
    ensures Decode(ps) == Chars(Utf8.Encode(text))
    decreases |text|
  {
    hide Escapes, EscapesPair, Spells, Utf8.EncodeChar, Meaning, Chars, RawBytes;
    if text == "" {
      assert ps == [] by { SpellsNothing(ps); }
      NoChars();
    } else {
      var bytes := Utf8.EncodeChar(text[0]);
      var raw := RawBytes(bytes);
      FirstSpelled(ps, text);
      if Escapes(ps[0], text[0]) && Spells(ps[1..], text[1..]) {
        ReadsBytes(ps[1..], text[1..]);
        EscapeReadsByte(ps[0], text[0]);
      } else {
        ReadsBytes(ps[|raw|..], text[1..]);
        assert ps == raw + ps[|raw|..];
        DecodeAppend(raw, ps[|raw|..]);
        DecodeRaw(bytes);
      }
      CharsAppend(bytes, Utf8.Encode(text[1..]));
    }
  }

  lemma SpellsNothing(ps: seq<Piece>)
    requires PiecesOk(ps) && Spells(ps, "")
    ensures ps == []
  {
  }

  lemma NoChars()
    ensures Chars([]) == ""
  {
  }

  lemma {:induction false} DecodeAppend(ps: seq<Piece>, qs: seq<Piece>)
    requires PiecesOk(ps) && PiecesOk(qs)
    ensures PiecesOk(ps + qs) && Decode(ps + qs) == Decode(ps) + Decode(qs)
    decreases |ps|
  {
    hide Meaning, PieceOk;
    if ps == [] {
      assert ps + qs == qs;
    } else {
      assert (ps + qs)[1..] == ps[1..] + qs;
      DecodeAppend(ps[1..], qs);
      var first, rest := [Meaning(ps[0])], Decode(ps[1..]);
      assert first + (rest + Decode(qs)) == (first + rest) + Decode(qs);
    }
  }

  lemma {:induction false} DecodeRaw(bytes: seq<Utf8.Byte>)
    requires PiecesOk(RawBytes(bytes))
    ensures Decode(RawBytes(bytes)) == Chars(bytes)
    decreases |bytes|
  {
    if bytes != [] {
      assert RawBytes(bytes)[1..] == RawBytes(bytes[1..]);
      DecodeRaw(bytes[1..]);
    }
  }

  /** It compares names without other escapes as the strings they spell, too. */
  lemma SameIfEscapesAscii(ps: seq<Piece>, qs: seq<Piece>)
    requires PiecesOk(ps) && PiecesOk(qs) && EscapesAscii(ps) && EscapesAscii(qs)
    requires Spellable(ps) && Spellable(qs)
    ensures SameName(ps, qs) <==> Decode(ps) == Decode(qs)
  {
    hide EscapesAscii, Spells, Decode, Utf8.Encode;
    forall a, b | Spells(ps, a) && Spells(qs, b) ensures a == b <==> Decode(ps) == Decode(qs) {
      ReadsBytes(ps, a);
      ReadsBytes(qs, b);
      if Decode(ps) == Decode(qs) {
        CharsInjective(Utf8.Encode(a), Utf8.Encode(b));
        Utf8.EncodeInjective(a, b);
      }
    }
    var a :| Spells(ps, a);
    var b :| Spells(qs, b);
    assert a == b <==> Decode(ps) == Decode(qs);
  }

  lemma CharsInjective(a: seq<Utf8.Byte>, b: seq<Utf8.Byte>)
    requires Chars(a) == Chars(b)
    ensures a == b
  {
    assert |Chars(a)| == |a| && |Chars(b)| == |b|;
    forall i | 0 <= i < |a| ensures a[i] == b[i] {
      assert Chars(a)[i] == Chars(b)[i];
    }
  }

  function NamePieces(members: Members): seq<seq<Piece>> {
    if members.NoMembers? then [] else [members.name] + NamePieces(members.rest)
  }

  lemma {:induction false} NamePiecesAt(members: Members)
    requires MembersOk(members)
    ensures |NamePieces(members)| == |Names(members)|
    ensures forall i :: 0 <= i < |Names(members)|
                        ==> PiecesOk(NamePieces(members)[i]) && Names(members)[i] == Decode(NamePieces(members)[i])
    ensures NoSurrogateMembers(members)
            ==> forall i :: 0 <= i < |Names(members)| ==> !HasSurrogate(NamePieces(members)[i])
    decreases members
  {
    hide PiecesOk, HasSurrogate, Decode;
    if members.Member? {
      NamePiecesAt(members.rest);
    }
  }

  /** No two members of the object are named alike. */
  ghost predicate NamedApart(members: Members)
    requires MembersOk(members)
  {
    var names := NamePieces(members);
    forall i, j :: 0 <= i < j < |names| && PiecesOk(names[i]) && PiecesOk(names[j]) ==> !SameName(names[i], names[j])
  }

  /** The names of the object are all without raw characters above ASCII, or all without escapes above it. */
  ghost predicate OneWay(members: Members)
    requires MembersOk(members)
  {
    var names := NamePieces(members);
    || (forall i :: 0 <= i < |names| ==> RawAscii(names[i]))
    || (forall i :: 0 <= i < |names| && PiecesOk(names[i]) ==> EscapesAscii(names[i]) && Spellable(names[i]))
  }

  lemma ObjectNames(members: Members)
    requires MembersOk(members) && NoSurrogateMembers(members) && OneWay(members)
    ensures NoRepeats(Names(members)) <==> NamedApart(members)
  {
    hide RawAscii, EscapesAscii, SameName, Spellable, Decode, HasSurrogate, PiecesOk, NamePieces, Names;
    NamePiecesAt(members);
    var names := NamePieces(members);
    forall i, j | 0 <= i < j < |names|
      ensures Names(members)[i] == Names(members)[j] <==> SameName(names[i], names[j])
    {
      if forall k :: 0 <= k < |names| ==> RawAscii(names[k]) {
        SameIfRawAscii(names[i], names[j]);
      } else {
        SameIfEscapesAscii(names[i], names[j]);
      }
    }
  }

  /** No object, at any depth, has two members that are named alike. */
  ghost predicate NoNameTwice(v: Value)
    requires ValueOk(v)
  {
    match v
    case Array(_, items) => NoNameTwiceInItems(items)
    case Object(_, members) => NamedApart(members) && NoNameTwiceInMembers(members)
    case _ => true
  }

  ghost predicate NoNameTwiceInItems(items: Items)
    requires ItemsOk(items)
  {
    items.Item? ==> NoNameTwice(items.value) && NoNameTwiceInItems(items.rest)
  }

  ghost predicate NoNameTwiceInMembers(members: Members)
    requires MembersOk(members)
  {
    members.Member? ==> NoNameTwice(members.value) && NoNameTwiceInMembers(members.rest)
  }

  /** Every object, at any depth, writes its names one way. */
  ghost predicate WrittenOneWay(v: Value)
    requires ValueOk(v)
  {
    match v
    case Array(_, items) => ItemsWrittenOneWay(items)
    case Object(_, members) => OneWay(members) && MembersWrittenOneWay(members)
    case _ => true
  }

  ghost predicate ItemsWrittenOneWay(items: Items)
    requires ItemsOk(items)
  {
    items.Item? ==> WrittenOneWay(items.value) && ItemsWrittenOneWay(items.rest)
  }

  ghost predicate MembersWrittenOneWay(members: Members)
    requires MembersOk(members)
  {
    members.Member? ==> WrittenOneWay(members.value) && MembersWrittenOneWay(members.rest)
  }

  lemma {:induction false} SpelledDuplicates(v: Value)
    requires ValueOk(v) && NoSurrogates(v) && WrittenOneWay(v)
    ensures NoDuplicates(v) <==> NoNameTwice(v)
    decreases v, 1
  {
    hide NamedApart, OneWay, NoRepeats, Names;
    match v
    case Array(_, items) => SpelledDuplicateItems(items);
    case Object(_, members) =>
      ObjectNames(members);
      SpelledDuplicateMembers(members);
    case _ =>
  }

  lemma {:induction false} SpelledDuplicateItems(items: Items)
    requires ItemsOk(items) && NoSurrogateItems(items) && ItemsWrittenOneWay(items)
    ensures NoDuplicateItems(items) <==> NoNameTwiceInItems(items)
    decreases items, 0
  {
    if items.Item? {
      SpelledDuplicates(items.value);
      SpelledDuplicateItems(items.rest);
    }
  }

  lemma {:induction false} SpelledDuplicateMembers(members: Members)
    requires MembersOk(members) && NoSurrogateMembers(members) && MembersWrittenOneWay(members)
    ensures NoDuplicateMembers(members) <==> NoNameTwiceInMembers(members)
    decreases members, 0
  {
    if members.Member? {
      SpelledDuplicates(members.value);
      SpelledDuplicateMembers(members.rest);
    }
  }

  /**
   * Where every object writes its names one way, a well-formed text is accepted exactly when no object
   * has two members whose names spell the same string, and no string escapes a surrogate.
   */
  lemma VerdictOnNames(s: Bytes, t: Text)
    requires TextAt(s, t) && WrittenOneWay(t.value)
    ensures Verdict(s).Ok? <==> NoSurrogates(t.value) && NoNameTwice(t.value)
  {
    hide Verdict, WrittenOneWay, NoNameTwice, NoDuplicates, NoSurrogates;
    VerdictIsNoDuplicates(s, t);
    if NoSurrogates(t.value) {
      SpelledDuplicates(t.value);
    }
  }

  // ---- Outside ASCII ----

  const ZERO := Numeral(false, "0", None, None)

  function TwoMembers(first: seq<Piece>, second: seq<Piece>): Text {
    Text(0, Object(0, Member(first, 0, 0, Number(ZERO), 0, 0, Member(second, 0, 0, Number(ZERO), 0, 0, NoMembers))), 0)
  }

  predicate TwoMembersWritten(s: Bytes, first: seq<Piece>, second: seq<Piece>) {
    var m := 1 + QuotedLength(first);
    var n := m + 3 + QuotedLength(second);
    && Byte(s, 0, '{')
    && QuotedAt(s, 1, first) && Byte(s, m, ':') && Byte(s, m + 1, '0') && Byte(s, m + 2, ',')
    && QuotedAt(s, m + 3, second) && Byte(s, n, ':') && Byte(s, n + 1, '0') && Byte(s, n + 2, '}')
    && |s| == n + 3
  }

  lemma TwoMembersOk(first: seq<Piece>, second: seq<Piece>)
    requires PiecesOk(first) && PiecesOk(second)
    ensures var last := Member(second, 0, 0, Number(ZERO), 0, 0, NoMembers);
            MembersOk(last) && MembersOk(Member(first, 0, 0, Number(ZERO), 0, 0, last))
  {
    hide PiecesOk;
    assert NumeralOk(ZERO);
    assert ValueOk(Number(ZERO));
    assert MembersOk(Member(second, 0, 0, Number(ZERO), 0, 0, NoMembers));
  }

  lemma TwoMembersAt(s: Bytes, first: seq<Piece>, second: seq<Piece>)
    requires PiecesOk(first) && PiecesOk(second) && TwoMembersWritten(s, first, second)
    ensures TextAt(s, TwoMembers(first, second))
  {
    hide QuotedAt;
    var m, v := 1 + QuotedLength(first), Number(ZERO);
    var last := Member(second, 0, 0, v, 0, 0, NoMembers);
    var both := Member(first, 0, 0, v, 0, 0, last);
    assert PrintNumeral(ZERO) == "0";
    assert MemberAt(s, 1, first, 0, 0, v) && MemberAt(s, m + 3, second, 0, 0, v);
    TwoMembersOk(first, second);
    assert MembersAt(s, m + 3, last) && MembersAt(s, 1, both);
    assert MembersLength(last) == QuotedLength(second) + 2;
    assert MembersLength(both) == QuotedLength(first) + 3 + MembersLength(last) == |s| - 2;
    assert ValueAt(s, 0, Object(0, both));
  }

  lemma TwoMembersVerdict(s: Bytes, first: seq<Piece>, second: seq<Piece>)
    requires PiecesOk(first) && PiecesOk(second) && TextAt(s, TwoMembers(first, second))
    requires !HasSurrogate(first) && !HasSurrogate(second)
    ensures Verdict(s).Ok? <==> Decode(first) != Decode(second)
  {
    hide Verdict, TextAt, ValueAt, HasSurrogate, Decode;
    VerdictOnText(s, TwoMembers(first, second));
    var last := Member(second, 0, 0, Number(ZERO), 0, 0, NoMembers);
    var both := Member(first, 0, 0, Number(ZERO), 0, 0, last);
    var seen := {} + {Decode(first)};
    TwoMembersOk(first, second);
    assert CheckMembers(last, seen).None? <==> Decode(second) !in seen;
    assert CheckMembers(both, {}) == CheckMembers(last, seen);
    assert Check(Object(0, both)) == CheckMembers(both, {});
  }

  // The letter e with an acute accent: its two UTF-8 bytes, its escape, and the two characters
  // that have those two bytes as their numbers.
  const RAW_E_ACUTE := [Raw('\U{C3}'), Raw('\U{A9}')]
  const ESCAPED_E_ACUTE := [Unicode('0', '0', 'e', '9')]
  const ESCAPED_BYTES := [Unicode('0', '0', 'c', '3'), Unicode('0', '0', 'a', '9')]

  lemma EAcuteSpellings()
    ensures PiecesOk(RAW_E_ACUTE) && PiecesOk(ESCAPED_E_ACUTE) && PiecesOk(ESCAPED_BYTES)
    ensures Spells(RAW_E_ACUTE, "\U{E9}") && Spells(ESCAPED_E_ACUTE, "\U{E9}")
    ensures Spells(ESCAPED_BYTES, "\U{C3}\U{A9}")
    ensures !HasSurrogate(RAW_E_ACUTE) && !HasSurrogate(ESCAPED_E_ACUTE) && !HasSurrogate(ESCAPED_BYTES)
    ensures Decode(RAW_E_ACUTE) == Decode(ESCAPED_BYTES) != Decode(ESCAPED_E_ACUTE)
  {
    assert RawBytes(Utf8.EncodeChar('\U{E9}')) == RAW_E_ACUTE;
    assert RAW_E_ACUTE[1..] == [Raw('\U{A9}')] && RAW_E_ACUTE[2..] == [];
    assert ESCAPED_BYTES[1..] == [Unicode('0', '0', 'a', '9')];
    assert Decode(RAW_E_ACUTE) == "\U{C3}\U{A9}" == Decode(ESCAPED_BYTES);
  }

  const MISSED_DUPLICATE := "{\"\U{C3}\U{A9}\":0,\"\\u00e9\":0}"
  const FALSE_DUPLICATE := "{\"\U{C3}\U{A9}\":0,\"\\u00c3\\u00a9\":0}"

  lemma RawEAcuteAt(s: Bytes)
    requires |s| > 4 && s[1] == s[4] == '\"' && s[2] == '\U{C3}' && s[3] == '\U{A9}'
    ensures QuotedLength(RAW_E_ACUTE) == 4 && QuotedAt(s, 1, RAW_E_ACUTE)
  {
    assert RAW_E_ACUTE[1..] == [Raw('\U{A9}')];
    assert PiecesAt(s, 3, RAW_E_ACUTE[1..]);
  }

  lemma EscapedEAcuteAt(s: Bytes)
    requires |s| > 15 && s[8] == s[15] == '\"' && s[9..15] == "\\u00e9"
    ensures QuotedLength(ESCAPED_E_ACUTE) == 8 && QuotedAt(s, 8, ESCAPED_E_ACUTE)
  {
    assert ESCAPED_E_ACUTE[1..] == [];
    forall i | 0 <= i < 6 ensures s[9 + i] == s[9..15][i] {
    }
    assert s[9] == '\\' && s[10] == 'u' && s[11] == '0' && s[12] == '0' && s[13] == 'e' && s[14] == '9';
  }

  lemma MissedDuplicateWritten()
    ensures TwoMembersWritten(MISSED_DUPLICATE, RAW_E_ACUTE, ESCAPED_E_ACUTE)
  {
    hide QuotedLength, QuotedAt;
    RawEAcuteAt(MISSED_DUPLICATE);
    EscapedEAcuteAt(MISSED_DUPLICATE);
  }

  lemma FalseDuplicateWritten()
    ensures TwoMembersWritten(FALSE_DUPLICATE, RAW_E_ACUTE, ESCAPED_BYTES)
  {
    hide PiecesOk;
    RawEAcuteAt(FALSE_DUPLICATE);
    assert ESCAPED_BYTES[1..] == [Unicode('0', '0', 'a', '9')];
    assert PiecesLength(ESCAPED_BYTES[1..]) == 6 && PiecesAt(FALSE_DUPLICATE, 15, ESCAPED_BYTES[1..]);
    assert PiecesLength(ESCAPED_BYTES) == 12 && QuotedAt(FALSE_DUPLICATE, 8, ESCAPED_BYTES);
  }

  /**
   * Bytes above 127 are taken one at a time, so a name written raw and the same name written
   * with an escape are different to the detector: this duplicate is missed.
   */
  lemma NonAsciiDuplicateMissed()
    ensures PiecesOk(RAW_E_ACUTE) && Spells(RAW_E_ACUTE, "\U{E9}")
    ensures PiecesOk(ESCAPED_E_ACUTE) && Spells(ESCAPED_E_ACUTE, "\U{E9}")
    ensures TextAt(MISSED_DUPLICATE, TwoMembers(RAW_E_ACUTE, ESCAPED_E_ACUTE))
    ensures Verdict(MISSED_DUPLICATE).Ok?
  {
    hide *;
    EAcuteSpellings();
    MissedDuplicateWritten();
    TwoMembersAt(MISSED_DUPLICATE, RAW_E_ACUTE, ESCAPED_E_ACUTE);
    TwoMembersVerdict(MISSED_DUPLICATE, RAW_E_ACUTE, ESCAPED_E_ACUTE);
  }

  /** And two different names can be taken for the same one. */
  lemma NonAsciiFalseDuplicate()
    ensures PiecesOk(RAW_E_ACUTE) && Spells(RAW_E_ACUTE, "\U{E9}")
    ensures PiecesOk(ESCAPED_BYTES) && Spells(ESCAPED_BYTES, "\U{C3}\U{A9}")
    ensures TextAt(FALSE_DUPLICATE, TwoMembers(RAW_E_ACUTE, ESCAPED_BYTES))
    ensures Verdict(FALSE_DUPLICATE).Err?
  {
    hide *;
    EAcuteSpellings();
    FalseDuplicateWritten();
    TwoMembersAt(FALSE_DUPLICATE, RAW_E_ACUTE, ESCAPED_BYTES);
    TwoMembersVerdict(FALSE_DUPLICATE, RAW_E_ACUTE, ESCAPED_BYTES);
  }
}
