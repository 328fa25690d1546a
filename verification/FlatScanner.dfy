/**
 * The flat duplicate-key scanner of lexicon-core/src/processing/runtime_information.rs: one
 * loop over the bytes with an explicit stack of frames, and what it does on a syntax tree. What
 * that comes to is in `ScannerTheorems`.
 */
module FlatScanner {
  import opened Wrappers
  import opened JsonGrammar
  import opened KeyDetector
  import opened DetectorTheorems

  /** One open object: whether the next string is a name, and the names seen so far. */
  datatype Frame = Frame(expecting: bool, seen: set<string>)

  // ---- The scanner ----

  /** The string that opens at `i`, from its second byte on: a backslash keeps the next byte. */
  function ReadString(s: Bytes, i: nat, escaped: bool, buffer: Bytes): (r: Option<(nat, Bytes)>)
    requires i <= |s|
    ensures r.Some? ==> i < r.value.0 <= |s|
    decreases |s| - i
  {
    if i == |s| then None
    else if escaped then ReadString(s, i + 1, false, buffer + [s[i]])
    else if s[i] == '\\' then ReadString(s, i + 1, true, buffer)
    else if s[i] == '\"' then Some((i + 1, buffer))
    else ReadString(s, i + 1, false, buffer + [s[i]])
  }

  function SetExpecting(stack: seq<Frame>, expecting: bool): (r: seq<Frame>)
    ensures |r| == |stack|
  {
    if stack == [] then [] else stack[|stack| - 1 := stack[|stack| - 1].(expecting := expecting)]
  }

  function Pop(stack: seq<Frame>): seq<Frame> {
    if stack == [] then [] else stack[..|stack| - 1]
  }

  datatype Step = Go(stack: seq<Frame>) | Repeated(key: string)

  /** A string read while `stack` is open: a name of the innermost object, or nothing. */
  function Note(stack: seq<Frame>, text: string): Step {
    if stack == [] || !stack[|stack| - 1].expecting then Go(stack)
    else
      var top := stack[|stack| - 1];
      if text in top.seen then Repeated(text)
      else Go(stack[|stack| - 1 := top.(seen := top.seen + {text})])
  }

  function ScanFlat(s: Bytes, i: nat, stack: seq<Frame>): Option<string>
    requires i <= |s|
    decreases |s| - i
  {
    if i == |s| then None
    else if s[i] == '{' then ScanFlat(s, i + 1, stack + [Frame(true, {})])
    else if s[i] == '}' then ScanFlat(s, i + 1, Pop(stack))
    else if s[i] == ',' then ScanFlat(s, i + 1, SetExpecting(stack, true))
    else if s[i] == ':' then ScanFlat(s, i + 1, SetExpecting(stack, false))
    else if s[i] == '\"' then
      match ReadString(s, i + 1, false, "")
      case None => None
      case Some((next, text)) =>
        match Note(stack, text)
        case Repeated(key) => Some(key)
        case Go(stack') => ScanFlat(s, next, stack')
    else ScanFlat(s, i + 1, stack)
  }

  method ParseJsonString(s: Bytes, start: nat) returns (r: Option<(nat, Bytes)>)
    requires start < |s|
    ensures r == ReadString(s, start + 1, false, "")
  {
    var index := start + 1;
    var escaped := false;
    var buffer := "";
    while index < |s|
      invariant index <= |s|
      invariant ReadString(s, start + 1, false, "") == ReadString(s, index, escaped, buffer)
    {
      var byte := s[index];
      if escaped {
        buffer := buffer + [byte];
        escaped := false;
        index := index + 1;
        continue;
      }
      if byte == '\\' {
        escaped := true;
        index := index + 1;
      } else if byte == '\"' {
        return Some((index + 1, buffer));
      } else {
        buffer := buffer + [byte];
        index := index + 1;
      }
    }
    return None;
  }

  method DetectDuplicateObjectKeys(s: Bytes) returns (r: Option<string>)
    ensures r == ScanFlat(s, 0, [])
  {
    var stack: seq<Frame> := [];
    var index := 0;
    while index < |s|
      invariant index <= |s|
      invariant ScanFlat(s, 0, []) == ScanFlat(s, index, stack)
      decreases |s| - index
    {
      var byte := s[index];
      if byte == '{' {
        stack := stack + [Frame(true, {})];
        index := index + 1;
      } else if byte == '}' {
        if stack != [] {
          stack := stack[..|stack| - 1];
        }
        index := index + 1;
      } else if byte == ',' {
        if stack != [] {
          stack := stack[|stack| - 1 := stack[|stack| - 1].(expecting := true)];
        }
        index := index + 1;
      } else if byte == ':' {
        if stack != [] {
          stack := stack[|stack| - 1 := stack[|stack| - 1].(expecting := false)];
        }
        index := index + 1;
      } else if byte == '\"' {
        var found := ParseJsonString(s, index);
        if found.None? {
          return None;
        }
        var (next, value) := found.value;
        if stack != [] && stack[|stack| - 1].expecting {
          var top := stack[|stack| - 1];
          if value in top.seen {
            return Some(value);
          }
          stack := stack[|stack| - 1 := top.(seen := top.seen + {value})];
        }
        index := next;
      } else {
        index := index + 1;
      }
    }
    return None;
  }

  // ---- What the scanner does on a syntax tree ----

  /** What `parse_json_string` makes of a piece: the bytes without the backslash. */
  function FlatPiece(p: Piece): Bytes {
    match p
    case Raw(c) => [c]
    case Short(c) => [c]
    case Unicode(a, b, c, d) => ['u', a, b, c, d]
  }

  function FlatDecode(ps: seq<Piece>): Bytes {
    if ps == [] then "" else FlatPiece(ps[0]) + FlatDecode(ps[1..])
  }

  function FlatValue(v: Value, stack: seq<Frame>): Step
    decreases v, 0
  {
    match v
    case String(ps) => Note(stack, FlatDecode(ps))
    case Array(_, items) => FlatItems(items, stack)
    case Object(_, members) =>
      (match FlatMembers(members, stack + [Frame(true, {})])
       case Repeated(key) => Repeated(key)
       case Go(stack') => Go(Pop(stack')))
    case _ => Go(stack)
  }

  function FlatItems(items: Items, stack: seq<Frame>): Step
    decreases items, 0
  {
    if items.NoItems? then Go(stack)
    else
      match FlatValue(items.value, stack)
      case Repeated(key) => Repeated(key)
      case Go(stack') =>
        if items.rest.NoItems? then Go(stack') else FlatItems(items.rest, SetExpecting(stack', true))
  }

  /** A name, its colon and its value. */
  function FlatMember(name: seq<Piece>, v: Value, stack: seq<Frame>): Step
    decreases v, 1
  {
    match Note(stack, FlatDecode(name))
    case Repeated(key) => Repeated(key)
    case Go(noted) => FlatValue(v, SetExpecting(noted, false))
  }

  function FlatMembers(members: Members, stack: seq<Frame>): Step
    decreases members, 0
  {
    if members.NoMembers? then Go(stack)
    else
      match FlatMember(members.name, members.value, stack)
      case Repeated(key) => Repeated(key)
      case Go(stack') =>
        if members.rest.NoMembers? then Go(stack') else FlatMembers(members.rest, SetExpecting(stack', true))
  }

  /** The scan from position `i`, once `step` has been made. */
  function Resume(s: Bytes, i: nat, step: Step): Option<string>
    requires i <= |s|
  {
    match step
    case Repeated(key) => Some(key)
    case Go(stack) => ScanFlat(s, i, stack)
  }

  lemma {:induction false} FlatGap(s: Bytes, i: nat, gap: nat, stack: seq<Frame>)
    requires Blanks(s, i, gap)
    ensures ScanFlat(s, i, stack) == ScanFlat(s, i + gap, stack)
    decreases gap
  {
    if gap > 0 {
      FlatGap(s, i + 1, gap - 1, stack);
    }
  }

  lemma ReadPiece(s: Bytes, i: nat, p: Piece, buffer: Bytes)
    requires PieceOk(p) && PieceAt(s, i, p)
    ensures i + PieceLength(p) <= |s|
    ensures ReadString(s, i, false, buffer)
         == ReadString(s, i + PieceLength(p), false, buffer + FlatPiece(p))
  {
    if p.Short? {
      assert ReadString(s, i, false, buffer) == ReadString(s, i + 1, true, buffer);
    } else if p.Unicode? {
      var b1 := buffer + ['u'];
      var b2 := b1 + [p.a];
      var b3 := b2 + [p.b];
      var b4 := b3 + [p.c];
      assert ReadString(s, i, false, buffer) == ReadString(s, i + 1, true, buffer);
      assert ReadString(s, i + 1, true, buffer) == ReadString(s, i + 2, false, b1);
      assert ReadString(s, i + 2, false, b1) == ReadString(s, i + 3, false, b2);
      assert ReadString(s, i + 3, false, b2) == ReadString(s, i + 4, false, b3);
      assert ReadString(s, i + 4, false, b3) == ReadString(s, i + 5, false, b4);
      assert b4 + [p.d] == buffer + FlatPiece(p);
    }
  }

  lemma ReadQuote(s: Bytes, i: nat, buffer: Bytes)
    requires Byte(s, i, '\"')
    ensures ReadString(s, i, false, buffer) == Some((i + 1, buffer))
  {
  }

  lemma {:induction false} ReadPieces(s: Bytes, i: nat, ps: seq<Piece>, buffer: Bytes)
    requires PiecesOk(ps) && PiecesAt(s, i, ps) && Byte(s, i + PiecesLength(ps), '\"')
    ensures ReadString(s, i, false, buffer) == Some((i + PiecesLength(ps) + 1, buffer + FlatDecode(ps)))
    decreases |ps|
  {
    hide ReadString, PieceAt, FlatPiece;
    if ps == [] {
      ReadQuote(s, i, buffer);
      assert buffer + FlatDecode(ps) == buffer;
    } else {
      var first, rest := FlatPiece(ps[0]), FlatDecode(ps[1..]);
      ReadPiece(s, i, ps[0], buffer);
      ReadPieces(s, i + PieceLength(ps[0]), ps[1..], buffer + first);
      assert buffer + first + rest == buffer + (first + rest);
    }
  }

  lemma FlatQuoted(s: Bytes, i: nat, ps: seq<Piece>, stack: seq<Frame>)
    requires PiecesOk(ps) && QuotedAt(s, i, ps)
    ensures i + QuotedLength(ps) <= |s|
    ensures ScanFlat(s, i, stack) == Resume(s, i + QuotedLength(ps), Note(stack, FlatDecode(ps)))
  {
    hide ReadString, FlatDecode, PiecesAt, PiecesOk, PiecesLength, Note;
    ReadPieces(s, i + 1, ps, "");
    assert "" + FlatDecode(ps) == FlatDecode(ps);
  }

  /** The bytes of numbers and literals change nothing. */
  lemma {:induction false} FlatInert(s: Bytes, i: nat, width: nat, stack: seq<Frame>)
    requires i + width <= |s| && forall k :: i <= k < i + width ==> s[k] !in "{},:\""
    ensures ScanFlat(s, i, stack) == ScanFlat(s, i + width, stack)
    decreases width
  {
    if width > 0 {
      FlatInert(s, i + 1, width - 1, stack);
    }
  }

  lemma FlatWord(s: Bytes, i: nat, w: Bytes, stack: seq<Frame>)
    requires Word(s, i, w) && forall k :: 0 <= k < |w| ==> w[k] !in "{},:\""
    ensures ScanFlat(s, i, stack) == ScanFlat(s, i + |w|, stack)
  {
    forall k | i <= k < i + |w| ensures s[k] !in "{},:\"" {
      assert s[i + (k - i)] == w[k - i];
    }
    FlatInert(s, i, |w|, stack);
  }

  /** Brackets, commas and colons. */
  lemma FlatByte(s: Bytes, i: nat, stack: seq<Frame>)
    requires i < |s|
    ensures s[i] == '{' ==> ScanFlat(s, i, stack) == ScanFlat(s, i + 1, stack + [Frame(true, {})])
    ensures s[i] == '}' ==> ScanFlat(s, i, stack) == ScanFlat(s, i + 1, Pop(stack))
    ensures s[i] == ',' ==> ScanFlat(s, i, stack) == ScanFlat(s, i + 1, SetExpecting(stack, true))
    ensures s[i] == ':' ==> ScanFlat(s, i, stack) == ScanFlat(s, i + 1, SetExpecting(stack, false))
    ensures s[i] in "[]" ==> ScanFlat(s, i, stack) == ScanFlat(s, i + 1, stack)
  {
  }

  lemma FlatScalar(s: Bytes, i: nat, v: Value, stack: seq<Frame>)
    requires ValueOk(v) && ValueAt(s, i, v) && (v.String? || v.Number? || v.Literal?)
    ensures i + ValueLength(v) <= |s|
    ensures ScanFlat(s, i, stack) == Resume(s, i + ValueLength(v), FlatValue(v, stack))
  {
    hide ScanFlat, QuotedAt, QuotedLength, Note, FlatDecode, NumeralOk, PrintNumeral, PiecesOk;
    match v
    case String(ps) => FlatQuoted(s, i, ps, stack);
    case Number(n) =>
      NumeralBytes(n);
      FlatWord(s, i, PrintNumeral(n), stack);
    case Literal(w) => FlatWord(s, i, w, stack);
  }

  /** An array is scanned whole once its items are. */
  lemma FlatArrayWhole(s: Bytes, i: nat, gap: nat, items: Items, stack: seq<Frame>)
    requires Byte(s, i, '[') && Blanks(s, i + 1, gap) && Byte(s, i + 1 + gap + ItemsLength(items), ']')
    requires ScanFlat(s, i + 1 + gap, stack)
          == Resume(s, i + 1 + gap + ItemsLength(items), FlatItems(items, stack))
    ensures i + ValueLength(Array(gap, items)) <= |s|
    ensures ScanFlat(s, i, stack) == Resume(s, i + ValueLength(Array(gap, items)), FlatValue(Array(gap, items), stack))
  {
    hide ScanFlat, FlatItems, ItemsLength, Blanks;
    FlatByte(s, i, stack);
    FlatGap(s, i + 1, gap, stack);
    var step := FlatItems(items, stack);
    FlatByte(s, i + 1 + gap + ItemsLength(items), if step.Go? then step.stack else []);
  }

  /** So is an object once its members are. */
  lemma FlatObjectWhole(s: Bytes, i: nat, gap: nat, members: Members, stack: seq<Frame>)
    requires Byte(s, i, '{') && Blanks(s, i + 1, gap) && Byte(s, i + 1 + gap + MembersLength(members), '}')
    requires ScanFlat(s, i + 1 + gap, stack + [Frame(true, {})])
          == Resume(s, i + 1 + gap + MembersLength(members), FlatMembers(members, stack + [Frame(true, {})]))
    ensures i + ValueLength(Object(gap, members)) <= |s|
    ensures ScanFlat(s, i, stack)
         == Resume(s, i + ValueLength(Object(gap, members)), FlatValue(Object(gap, members), stack))
  {
    hide ScanFlat, FlatMembers, MembersLength, Blanks, Pop;
    var inner := stack + [Frame(true, {})];
    FlatByte(s, i, stack);
    FlatGap(s, i + 1, gap, inner);
    var step := FlatMembers(members, inner);
    FlatByte(s, i + 1 + gap + MembersLength(members), if step.Go? then step.stack else []);
  }

  lemma {:induction false} FlatPrinted(s: Bytes, i: nat, v: Value, stack: seq<Frame>)
    requires ValueOk(v) && ValueAt(s, i, v)
    ensures i + ValueLength(v) <= |s|
    ensures ScanFlat(s, i, stack) == Resume(s, i + ValueLength(v), FlatValue(v, stack))
    decreases v, 0
  {
    hide ScanFlat, ItemsAt, MembersAt, Note, QuotedAt, FlatItems, FlatMembers, FlatValue, Resume, ItemsLength,
      MembersLength, Blanks;
    match v
    case Array(gap, items) =>
      FlatItemsPrinted(s, i + 1 + gap, items, stack);
      FlatArrayWhole(s, i, gap, items, stack);
    case Object(gap, members) =>
      FlatMembersPrinted(s, i + 1 + gap, members, stack + [Frame(true, {})]);
      FlatObjectWhole(s, i, gap, members, stack);
    case _ => FlatScalar(s, i, v, stack);
  }

  /** The blank and the comma after an element that is not the last one. */
  lemma FlatSeparator(s: Bytes, i: nat, after: nat, gap: nat, stack: seq<Frame>)
    requires Blanks(s, i, after) && Byte(s, i + after, ',') && Blanks(s, i + after + 1, gap)
    ensures ScanFlat(s, i, stack) == ScanFlat(s, i + after + 1 + gap, SetExpecting(stack, true))
  {
    FlatGap(s, i, after, stack);
    FlatByte(s, i + after, stack);
    FlatGap(s, i + after + 1, gap, SetExpecting(stack, true));
  }

  lemma {:induction false} FlatItemsPrinted(s: Bytes, i: nat, items: Items, stack: seq<Frame>)
    requires ItemsOk(items) && ItemsAt(s, i, items) && i <= |s|
    ensures i + ItemsLength(items) <= |s|
    ensures ScanFlat(s, i, stack) == Resume(s, i + ItemsLength(items), FlatItems(items, stack))
    decreases items, 0
  {
    hide ScanFlat, ValueAt, Note, SetExpecting;
    if items.Item? {
      var Item(v, after, gap, rest) := items;
      FlatPrinted(s, i, v, stack);
      var end := i + ValueLength(v);
      var step := FlatValue(v, stack);
      var last := if step.Go? then step.stack else [];
      if rest.Item? {
        FlatSeparator(s, end, after, gap, last);
        FlatItemsPrinted(s, end + after + 1 + gap, rest, SetExpecting(last, true));
      } else {
        FlatGap(s, end, after, last);
      }
    }
  }

  lemma {:induction false} FlatMemberPrinted(s: Bytes, i: nat, name: seq<Piece>, before: nat,
                                             afterColon: nat, v: Value, stack: seq<Frame>)
    requires PiecesOk(name) && ValueOk(v) && MemberAt(s, i, name, before, afterColon, v)
    ensures i + MemberLength(name, before, afterColon, v) <= |s|
    ensures ScanFlat(s, i, stack)
         == Resume(s, i + MemberLength(name, before, afterColon, v), FlatMember(name, v, stack))
    decreases v, 1
  {
    hide ScanFlat, ValueAt, QuotedAt, Note, SetExpecting;
    FlatQuoted(s, i, name, stack);
    var colon := i + QuotedLength(name) + before;
    var noted := Note(stack, FlatDecode(name));
    var open := if noted.Go? then noted.stack else [];
    FlatGap(s, i + QuotedLength(name), before, open);
    FlatByte(s, colon, open);
    FlatGap(s, colon + 1, afterColon, SetExpecting(open, false));
    FlatPrinted(s, colon + 1 + afterColon, v, SetExpecting(open, false));
  }

  lemma {:induction false} FlatMembersPrinted(s: Bytes, i: nat, members: Members, stack: seq<Frame>)
    requires MembersOk(members) && MembersAt(s, i, members) && i <= |s|
    ensures i + MembersLength(members) <= |s|
    ensures ScanFlat(s, i, stack) == Resume(s, i + MembersLength(members), FlatMembers(members, stack))
    decreases members, 0
  {
    hide ScanFlat, MemberAt, FlatMember, SetExpecting;
    if members.Member? {
      var Member(name, before, afterColon, v, after, gap, rest) := members;
      FlatMemberPrinted(s, i, name, before, afterColon, v, stack);
      var end := i + MemberLength(name, before, afterColon, v);
      var step := FlatMember(name, v, stack);
      var last := if step.Go? then step.stack else [];
      if rest.Member? {
        FlatSeparator(s, end, after, gap, last);
        FlatMembersPrinted(s, end + after + 1 + gap, rest, SetExpecting(last, true));
      } else {
        FlatGap(s, end, after, last);
      }
    }
  }

  /** On every well-formed text the scanner does what it does on the syntax tree. */
  lemma FlatOnText(s: Bytes, t: Text)
    requires TextAt(s, t)
    ensures ScanFlat(s, 0, []) == match FlatValue(t.value, []) case Repeated(key) => Some(key) case Go(_) => None
  {
    hide ValueAt, FlatValue;
    FlatGap(s, 0, t.lead, []);
    FlatPrinted(s, t.lead, t.value, []);
    var step := FlatValue(t.value, []);
    FlatGap(s, t.lead + ValueLength(t.value), t.trail, if step.Go? then step.stack else []);
  }
}
