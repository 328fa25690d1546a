/**
 * What the recursive-descent detector decides about JSON texts.
 *
 * `Check` walks a syntax tree in document order and names the first fault: a repeated
 * member name, or an escaped surrogate. `VerdictOnText` shows that scanning the bytes of
 * any well-formed text finds exactly that fault, and `VerdictIsNoDuplicates` says in plain
 * terms when there is none.
 */
module DetectorTheorems {
  import opened Wrappers
  import opened Ordering
  import opened JsonGrammar
  import opened KeyDetector

  // ---- The first fault of a syntax tree, in document order ----

  function CheckPieces(ps: seq<Piece>): Option<DetectorError>
    requires PiecesOk(ps)
  {
    if HasSurrogate(ps) then Some(InvalidCodepoint) else None
  }

  function Check(v: Value): Option<DetectorError>
    requires ValueOk(v)
    decreases v, 0
  {
    match v
    case String(ps) => CheckPieces(ps)
    case Array(_, items) => CheckItems(items)
    case Object(_, members) => CheckMembers(members, {})
    case _ => None
  }

  function CheckItems(items: Items): Option<DetectorError>
    requires ItemsOk(items)
    decreases items, 0
  {
    if items.NoItems? then None
    else if Check(items.value).Some? then Check(items.value)
    else CheckItems(items.rest)
  }

  function CheckMember(name: seq<Piece>, v: Value, seen: set<string>): Option<DetectorError>
    requires PiecesOk(name) && ValueOk(v)
    decreases v, 1
  {
    if HasSurrogate(name) then Some(InvalidCodepoint)
    else if Decode(name) in seen then Some(DuplicateField(Decode(name)))
    else Check(v)
  }

  function CheckMembers(members: Members, seen: set<string>): Option<DetectorError>
    requires MembersOk(members)
    decreases members, 0
  {
    if members.NoMembers? then None
    else
      var first := CheckMember(members.name, members.value, seen);
      if first.Some? then first else CheckMembers(members.rest, seen + {Decode(members.name)})
  }

  /** The scan that corresponds to a fault, or to none. */
  function Outcome<T>(fault: Option<DetectorError>, value: T, next: nat): Scan<T> {
    if fault.Some? then Bad(fault.value) else Good(value, next)
  }

  // ---- Blanks, strings and numbers ----

  lemma {:induction false} SkipGap(s: Bytes, i: nat, gap: nat)
    requires Blanks(s, i, gap)
    requires i + gap < |s| ==> !IsAsciiWhitespace(s[i + gap])
    ensures SkipWhitespace(s, i) == i + gap
    decreases gap
  {
    if gap > 0 {
      SkipGap(s, i + 1, gap - 1);
    }
  }

  lemma SurrogateCons(ps: seq<Piece>)
    requires PiecesOk(ps) && ps != []
    ensures HasSurrogate(ps) <==> IsSurrogate(ps[0]) || HasSurrogate(ps[1..])
  {
    if HasSurrogate(ps) && !IsSurrogate(ps[0]) {
      var i :| 0 <= i < |ps| && IsSurrogate(ps[i]);
      assert ps[1..][i - 1] == ps[i];
    }
    if HasSurrogate(ps[1..]) {
      var i :| 0 <= i < |ps[1..]| && IsSurrogate(ps[1..][i]);
      assert ps[i + 1] == ps[1..][i];
    }
  }

  lemma ScanHexDigits(s: Bytes, i: nat)
    requires i + 4 <= |s| && IsHex(s[i]) && IsHex(s[i + 1]) && IsHex(s[i + 2]) && IsHex(s[i + 3])
    ensures ScanHex(s, i, 4, 0) == Good(CodeUnit(s[i], s[i + 1], s[i + 2], s[i + 3]), i + 4)
  {
    var one := HexValue(s[i]);
    var two := one * 16 + HexValue(s[i + 1]);
    var three := two * 16 + HexValue(s[i + 2]);
    assert ScanHex(s, i, 4, 0) == ScanHex(s, i + 1, 3, one);
    assert ScanHex(s, i + 1, 3, one) == ScanHex(s, i + 2, 2, two);
    assert ScanHex(s, i + 2, 2, two) == ScanHex(s, i + 3, 1, three);
  }

  /** One piece of a string is read as the character it stands for. */
  lemma ScanPiece(s: Bytes, i: nat, p: Piece, text: string)
    requires PieceOk(p) && PieceAt(s, i, p)
    ensures i + PieceLength(p) <= |s|
    ensures ScanStringRest(s, i, text) ==
            if IsSurrogate(p) then Bad(InvalidCodepoint)
            else ScanStringRest(s, i + PieceLength(p), text + [Meaning(p)])
  {
    if p.Unicode? {
      ScanHexDigits(s, i + 2);
    }
  }

  lemma NoPieces(ps: seq<Piece>)
    requires ps == []
    ensures !HasSurrogate(ps)
  {
  }

  lemma {:induction false} ScanPieces(s: Bytes, i: nat, ps: seq<Piece>, text: string)
    requires PiecesOk(ps) && PiecesAt(s, i, ps) && Byte(s, i + PiecesLength(ps), '\"')
    ensures ScanStringRest(s, i, text)
         == Outcome(CheckPieces(ps), text + Decode(ps), i + PiecesLength(ps) + 1)
    decreases |ps|
  {
    hide HasSurrogate, IsSurrogate, Meaning, PieceAt;
    if ps == [] {
      assert !HasSurrogate(ps) by { NoPieces(ps); }
      assert text + Decode(ps) == text;
    } else {
      ScanPiece(s, i, ps[0], text);
      SurrogateCons(ps);
      if !IsSurrogate(ps[0]) {
        ScanPieces(s, i + PieceLength(ps[0]), ps[1..], text + [Meaning(ps[0])]);
        assert text + [Meaning(ps[0])] + Decode(ps[1..]) == text + Decode(ps);
      }
    }
  }

  /**
   * `parse_string` undoes the escaping of RFC 8259, section 7: whatever mixture of raw
   * characters, short escapes and hexadecimal escapes a string is written with, parsing
   * gives the string back and stops just past the closing quote.
   */
  lemma ScanQuoted(s: Bytes, i: nat, ps: seq<Piece>)
    requires PiecesOk(ps) && QuotedAt(s, i, ps)
    ensures ScanString(s, i) == Outcome(CheckPieces(ps), Decode(ps), i + QuotedLength(ps))
  {
    ScanPieces(s, i + 1, ps, "");
    assert "" + Decode(ps) == Decode(ps);
  }

  lemma NumeralBytes(n: Numeral)
    requires NumeralOk(n)
    ensures var w := PrintNumeral(n);
            && |w| > 0 && (w[0] == '-' || IsDigit(w[0]))
            && forall k :: 0 <= k < |w| ==> IsNumberByte(w[k])
  {
  }

  /** A position where no numeral can continue. */
  predicate NumberEnds(s: Bytes, i: nat) {
    i < |s| ==> !IsNumberByte(s[i])
  }

  lemma {:induction false} ScanNumberBytes(s: Bytes, i: nat, width: nat)
    requires i + width <= |s| && NumberEnds(s, i + width)
    requires forall k :: i <= k < i + width ==> IsNumberByte(s[k])
    ensures ScanNumber(s, i) == i + width
    decreases width
  {
    if width > 0 {
      ScanNumberBytes(s, i + 1, width - 1);
    }
  }

  lemma ScanNumeral(s: Bytes, i: nat, n: Numeral)
    requires NumeralOk(n) && Word(s, i, PrintNumeral(n)) && NumberEnds(s, i + |PrintNumeral(n)|)
    ensures ScanNumber(s, i) == i + |PrintNumeral(n)|
  {
    NumeralBytes(n);
    forall k | i <= k < i + |PrintNumeral(n)| ensures IsNumberByte(s[k]) {
      assert s[i + (k - i)] == PrintNumeral(n)[k - i];
    }
    ScanNumberBytes(s, i, |PrintNumeral(n)|);
  }

  // ---- Values ----

  /** A value is not empty, and its first byte says what kind of value it is. */
  lemma FirstByte(s: Bytes, i: nat, v: Value)
    requires ValueOk(v) && ValueAt(s, i, v)
    ensures ValueLength(v) > 0 && i < |s| && !IsAsciiWhitespace(s[i])
    ensures s[i] != ']' && s[i] != '}' && s[i] != ','
    ensures v.Number? ==> s[i] == '-' || IsDigit(s[i])
    ensures v.Literal? ==> s[i] == v.word[0]
  {
    if v.Number? {
      NumeralBytes(v.numeral);
      assert s[i + 0] == PrintNumeral(v.numeral)[0];
    } else if v.Literal? {
      assert s[i + 0] == v.word[0];
    }
  }

  lemma FirstQuote(s: Bytes, i: nat, members: Members)
    requires MembersAt(s, i, members)
    ensures members.Member? ==> Byte(s, i, '\"')
  {
    if members.Member? {
      assert QuotedAt(s, i, members.name);
    }
  }

  /** What stands between two elements, or after the last one, is found by `Separator`. */
  lemma ScanSeparator(s: Bytes, i: nat, after: nat, more: bool, gap: nat, close: char)
    requires close == ']' || close == '}'
    requires Blanks(s, i, after) && Byte(s, i + after, if more then ',' else close)
    requires more ==>
      var next := i + after + 1 + gap;
      Blanks(s, i + after + 1, gap) && next < |s| && !IsAsciiWhitespace(s[next]) && s[next] != close
    ensures NumberEnds(s, i)
    ensures Separator(s, i, close) ==
            if more then More(i + after + 1 + gap) else Closed(i + after + 1)
  {
    SkipGap(s, i, after);
    if more {
      SkipGap(s, i + after + 1, gap);
    }
  }

  // One step of each scan, given what the scans of its parts return.

  lemma ScanArrayStep(s: Bytes, i: nat, gap: nat)
    requires Byte(s, i, '[') && Blanks(s, i + 1, gap)
    requires i + 1 + gap < |s| && !IsAsciiWhitespace(s[i + 1 + gap])
    ensures ScanValue(s, i) == ScanArray(s, i)
         == if s[i + 1 + gap] == ']' then Good((), i + gap + 2) else ScanItems(s, i + 1 + gap)
  {
    SkipGap(s, i + 1, gap);
  }

  lemma ScanObjectStep(s: Bytes, i: nat, gap: nat)
    requires Byte(s, i, '{') && Blanks(s, i + 1, gap)
    requires i + 1 + gap < |s| && !IsAsciiWhitespace(s[i + 1 + gap])
    ensures ScanValue(s, i) == ScanObject(s, i)
         == if s[i + 1 + gap] == '}' then Good((), i + gap + 2) else ScanMembers(s, i + 1 + gap, {})
  {
    SkipGap(s, i + 1, gap);
  }

  lemma ScanSimple(s: Bytes, i: nat, v: Value)
    requires ValueOk(v) && ValueAt(s, i, v) && NumberEnds(s, i + ValueLength(v))
    requires v.String? || v.Number? || v.Literal?
    ensures ScanValue(s, i) == Outcome(Check(v), (), i + ValueLength(v))
  {
    FirstByte(s, i, v);
    match v
    case String(ps) => ScanQuoted(s, i, ps);
    case Number(n) => ScanNumeral(s, i, n);
    case Literal(w) =>
  }

  lemma ScanItemsStep(s: Bytes, i: nat)
    requires i <= |s|
    ensures var item := ScanValue(s, i);
            ScanItems(s, i) ==
              if item.Bad? then item else
              match Separator(s, item.next, ']')
              case More(next) => ScanItems(s, next)
              case Closed(next) => Good((), next)
              case TrailingComma => Bad(TrailingCommaInArray)
              case Missing => Bad(MissingArrayTerminator)
  {
  }

  lemma ScanMemberStep(s: Bytes, i: nat, key: string, end: nat, before: nat, afterColon: nat, value: Scan<()>)
    requires i <= |s| && ScanString(s, i) == Good(key, end)
    requires Blanks(s, end, before) && Byte(s, end + before, ':')
    requires var start := end + before + 1 + afterColon;
             && Blanks(s, end + before + 1, afterColon)
             && start < |s| && !IsAsciiWhitespace(s[start]) && ScanValue(s, start) == value
    ensures forall seen :: ScanMember(s, i, seen) ==
              if key in seen then Bad(DuplicateField(key))
              else if value.Bad? then Bad(value.error) else Good(key, value.next)
  {
    SkipGap(s, end, before);
    SkipGap(s, end + before + 1, afterColon);
    assert ScanValue(s, end + before + 1) == value;
  }

  lemma ScanMembersStep(s: Bytes, i: nat, seen: set<string>)
    requires i <= |s|
    ensures var member := ScanMember(s, i, seen);
            ScanMembers(s, i, seen) ==
              if member.Bad? then Bad(member.error) else
              match Separator(s, member.next, '}')
              case More(next) => ScanMembers(s, next, seen + {member.value})
              case Closed(next) => Good((), next)
              case TrailingComma => Bad(TrailingCommaInObject)
              case Missing => Bad(MissingObjectTerminator)
  {
  }

  // Where the parts of an array or object stand.

  lemma ItemPosition(s: Bytes, i: nat, items: Items)
    requires items.Item? && ItemsOk(items) && ItemsAt(s, i, items) && Byte(s, i + ItemsLength(items), ']')
    ensures var end := i + ValueLength(items.value);
            var next := end + items.after + 1 + items.gap;
            && ValueAt(s, i, items.value) && NumberEnds(s, end)
            && (items.rest.Item? ==>
                  && Separator(s, end, ']') == More(next) && ItemsAt(s, next, items.rest)
                  && ItemsLength(items) == next - i + ItemsLength(items.rest))
            && (items.rest.NoItems? ==> Separator(s, end, ']') == Closed(i + ItemsLength(items) + 1))
  {
    hide QuotedAt, MembersAt, ValueAt;
    var end := i + ValueLength(items.value);
    if items.rest.Item? {
      FirstByte(s, end + items.after + 1 + items.gap, items.rest.value);
    }
    ScanSeparator(s, end, items.after, items.rest.Item?, items.gap, ']');
  }

  lemma MemberPosition(s: Bytes, i: nat, members: Members)
    requires members.Member? && MembersOk(members) && MembersAt(s, i, members)
    requires Byte(s, i + MembersLength(members), '}')
    ensures var Member(name, before, afterColon, v, after, gap, rest) := members;
            var end := i + MemberLength(name, before, afterColon, v);
            var next := end + after + 1 + gap;
            && MemberAt(s, i, name, before, afterColon, v) && NumberEnds(s, end)
            && (rest.Member? ==>
                  && Separator(s, end, '}') == More(next) && MembersAt(s, next, rest)
                  && MembersLength(members) == next - i + MembersLength(rest))
            && (rest.NoMembers? ==> Separator(s, end, '}') == Closed(i + MembersLength(members) + 1))
  {
    var Member(name, before, afterColon, v, after, gap, rest) := members;
    var end := i + MemberLength(name, before, afterColon, v);
    FirstQuote(s, end + after + 1 + gap, if rest.Member? then rest else NoMembers);
    ScanSeparator(s, end, after, rest.Member?, gap, '}');
  }

  lemma ScanArrayWhole(s: Bytes, i: nat, gap: nat, items: Items)
    requires ItemsOk(items) && ValueAt(s, i, Array(gap, items))
    requires items.Item? ==>
      ScanItems(s, i + 1 + gap) == Outcome(CheckItems(items), (), i + 1 + gap + ItemsLength(items) + 1)
    ensures ScanValue(s, i) == Outcome(CheckItems(items), (), i + 1 + gap + ItemsLength(items) + 1)
  {
    hide ScanItems, ScanArray, ScanValue;
    if items.Item? {
      FirstByte(s, i + 1 + gap, items.value);
    }
    ScanArrayStep(s, i, gap);
  }

  lemma ScanObjectWhole(s: Bytes, i: nat, gap: nat, members: Members)
    requires MembersOk(members) && ValueAt(s, i, Object(gap, members))
    requires members.Member? ==>
      ScanMembers(s, i + 1 + gap, {})
      == Outcome(CheckMembers(members, {}), (), i + 1 + gap + MembersLength(members) + 1)
    ensures ScanValue(s, i) == Outcome(CheckMembers(members, {}), (), i + 1 + gap + MembersLength(members) + 1)
  {
    hide MembersAt, ScanMembers, ScanObject, ScanValue;
    FirstQuote(s, i + 1 + gap, members);
    ScanObjectStep(s, i, gap);
  }

  lemma {:induction false} ScanPrinted(s: Bytes, i: nat, v: Value)
    requires ValueOk(v) && ValueAt(s, i, v) && NumberEnds(s, i + ValueLength(v))
    ensures i <= |s| && ScanValue(s, i) == Outcome(Check(v), (), i + ValueLength(v))
    decreases v, 0
  {
    hide ScanValue, ScanItems, ScanMembers, ItemsAt, MembersAt;
    FirstByte(s, i, v);
    match v
    case Array(gap, items) =>
      if items.Item? {
        ScanItemsPrinted(s, i + 1 + gap, items);
      }
      ScanArrayWhole(s, i, gap, items);
    case Object(gap, members) =>
      if members.Member? {
        ScanMembersPrinted(s, i + 1 + gap, members, {});
      }
      ScanObjectWhole(s, i, gap, members);
    case _ => ScanSimple(s, i, v);
  }

  lemma {:induction false} ScanItemsPrinted(s: Bytes, i: nat, items: Items)
    requires items.Item? && ItemsOk(items) && ItemsAt(s, i, items)
    requires Byte(s, i + ItemsLength(items), ']')
    ensures ScanItems(s, i) == Outcome(CheckItems(items), (), i + ItemsLength(items) + 1)
    decreases items
  {
    hide ScanValue, ScanItems, ItemsAt, ValueAt, Separator, NumberEnds;
    ItemPosition(s, i, items);
    ScanPrinted(s, i, items.value);
    var end := i + ValueLength(items.value);
    if items.rest.Item? {
      ScanItemsPrinted(s, end + items.after + 1 + items.gap, items.rest);
    }
    ScanItemsStep(s, i);
  }

  lemma {:induction false} ScanMemberPrinted(s: Bytes, i: nat, name: seq<Piece>, before: nat,
                                             afterColon: nat, v: Value, seen: set<string>)
    requires PiecesOk(name) && ValueOk(v) && MemberAt(s, i, name, before, afterColon, v)
    requires NumberEnds(s, i + MemberLength(name, before, afterColon, v))
    ensures ScanMember(s, i, seen)
         == Outcome(CheckMember(name, v, seen), Decode(name), i + MemberLength(name, before, afterColon, v))
    decreases v, 1
  {
    hide ScanString, ScanValue, QuotedAt, ValueAt, Decode, Check;
    ScanQuoted(s, i, name);
    if !HasSurrogate(name) {
      var end := i + QuotedLength(name);
      var start := end + before + 1 + afterColon;
      FirstByte(s, start, v);
      ScanPrinted(s, start, v);
      ScanMemberStep(s, i, Decode(name), end, before, afterColon, ScanValue(s, start));
    }
  }

  lemma {:induction false} ScanMembersPrinted(s: Bytes, i: nat, members: Members, seen: set<string>)
    requires members.Member? && MembersOk(members) && MembersAt(s, i, members)
    requires Byte(s, i + MembersLength(members), '}')
    ensures ScanMembers(s, i, seen)
         == Outcome(CheckMembers(members, seen), (), i + MembersLength(members) + 1)
    decreases members
  {
    hide ScanMember, ScanMembers, MembersAt, MemberAt, Separator, NumberEnds;
    hide MembersLength, MemberLength, CheckMember, Decode;
    var Member(name, before, afterColon, v, after, gap, rest) := members;
    MemberPosition(s, i, members);
    ScanMemberPrinted(s, i, name, before, afterColon, v, seen);
    var end := i + MemberLength(name, before, afterColon, v);
    if rest.Member? {
      ScanMembersPrinted(s, end + after + 1 + gap, rest, seen + {Decode(name)});
    }
    ScanMembersStep(s, i, seen);
  }

  /** On every well-formed text the detector reports the first fault, and nothing else. */
  lemma VerdictOnText(s: Bytes, t: Text)
    requires TextAt(s, t)
    ensures Verdict(s) == if Check(t.value).Some? then Err(Check(t.value).value) else Ok(())
  {
    FirstByte(s, t.lead, t.value);
    SkipGap(s, 0, t.lead);
    ScanPrinted(s, t.lead, t.value);
    assert ScanValue(s, 0) == ScanValue(s, t.lead);
    SkipGap(s, t.lead + ValueLength(t.value), t.trail);
  }

  // ---- What a fault means ----

  lemma {:induction false} CheckMeaning(v: Value)
    requires ValueOk(v)
    ensures Check(v).None? <==> NoSurrogates(v) && NoDuplicates(v)
    decreases v, 1
  {
    match v
    case Array(_, items) => CheckItemsMeaning(items);
    case Object(_, members) => CheckMembersMeaning(members, {});
    case _ =>
  }

  lemma {:induction false} CheckItemsMeaning(items: Items)
    requires ItemsOk(items)
    ensures CheckItems(items).None? <==> NoSurrogateItems(items) && NoDuplicateItems(items)
    decreases items
  {
    if items.Item? {
      CheckMeaning(items.value);
      CheckItemsMeaning(items.rest);
    }
  }

  predicate Disjoint(names: seq<string>, seen: set<string>) {
    forall i :: 0 <= i < |names| ==> names[i] !in seen
  }

  lemma {:induction false} CheckMembersMeaning(members: Members, seen: set<string>)
    requires MembersOk(members)
    ensures CheckMembers(members, seen).None? <==>
            && NoSurrogateMembers(members) && NoDuplicateMembers(members)
            && NoRepeats(Names(members)) && Disjoint(Names(members), seen)
    decreases members
  {
    if members.Member? {
      var name, names := Decode(members.name), Names(members.rest);
      CheckMeaning(members.value);
      CheckMembersMeaning(members.rest, seen + {name});
      assert Names(members) == [name] + names;
      DistinctCons(name, names, seen);
    }
  }

  lemma DistinctCons(name: string, names: seq<string>, seen: set<string>)
    ensures NoRepeats([name] + names) && Disjoint([name] + names, seen)
       <==> name !in seen && NoRepeats(names) && Disjoint(names, seen + {name})
  {
    var all := [name] + names;
    assert all[0] == name && forall i :: 0 <= i < |names| ==> all[i + 1] == names[i];
    if NoRepeats(all) && Disjoint(all, seen) {
      forall i | 0 <= i < |names| ensures names[i] !in seen + {name} {
        assert all[i + 1] == names[i];
      }
      forall i, j | 0 <= i < j < |names| ensures names[i] != names[j] {
        assert all[i + 1] != all[j + 1];
      }
    }
    if name !in seen && NoRepeats(names) && Disjoint(names, seen + {name}) {
      forall i | 0 <= i < |all| ensures all[i] !in seen {
        if i > 0 { assert all[i] == names[i - 1]; }
      }
    }
  }

  /**
   * A well-formed text is accepted exactly when no object repeats a decoded member name and
   * no string escapes a surrogate. For texts without surrogate escapes, acceptance is thus
   * exactly the absence of duplicate names.
   */
  lemma VerdictIsNoDuplicates(s: Bytes, t: Text)
    requires TextAt(s, t)
    ensures Verdict(s).Ok? <==> NoSurrogates(t.value) && NoDuplicates(t.value)
  {
    VerdictOnText(s, t);
    CheckMeaning(t.value);
  }

  /** Some object of the value, at any depth, has two members named `key`. */
  predicate Repeats(v: Value, key: string)
    requires ValueOk(v)
  {
    match v
    case Array(_, items) => RepeatsInItems(items, key)
    case Object(_, members) =>
      (multiset(Names(members))[key] >= 2) || RepeatsInMembers(members, key)
    case _ => false
  }

  predicate RepeatsInItems(items: Items, key: string)
    requires ItemsOk(items)
  {
    items.Item? && (Repeats(items.value, key) || RepeatsInItems(items.rest, key))
  }

  predicate RepeatsInMembers(members: Members, key: string)
    requires MembersOk(members)
  {
    members.Member? && (Repeats(members.value, key) || RepeatsInMembers(members.rest, key))
  }

  /** The name in a duplicate report is the name of two members of one object. */
  lemma {:induction false} ReportedNameRepeats(v: Value, key: string)
    requires ValueOk(v) && Check(v) == Some(DuplicateField(key))
    ensures Repeats(v, key)
    decreases v, 1
  {
    match v
    case Array(_, items) => ReportedInItems(items, key);
    case Object(_, members) => ReportedInMembers(members, {}, key);
    case _ =>
  }

  lemma {:induction false} ReportedInItems(items: Items, key: string)
    requires ItemsOk(items) && CheckItems(items) == Some(DuplicateField(key))
    ensures RepeatsInItems(items, key)
    decreases items
  {
    if Check(items.value).Some? {
      ReportedNameRepeats(items.value, key);
    } else {
      ReportedInItems(items.rest, key);
    }
  }

  lemma {:induction false} ReportedInMembers(members: Members, seen: set<string>, key: string)
    requires MembersOk(members) && CheckMembers(members, seen) == Some(DuplicateField(key))
    ensures || RepeatsInMembers(members, key)
            || multiset(Names(members))[key] >= 2
            || (key in seen && key in Names(members))
    decreases members
  {
    var name := Decode(members.name);
    assert Names(members) == [name] + Names(members.rest);
    var first := CheckMember(members.name, members.value, seen);
    if first.None? {
      ReportedInMembers(members.rest, seen + {name}, key);
    } else if Check(members.value) == first {
      ReportedNameRepeats(members.value, key);
    }
  }
}
