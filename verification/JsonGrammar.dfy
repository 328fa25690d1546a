/**
 * The concrete syntax of JSON texts (RFC 8259, sections 2 to 7). A syntax tree records every
 * escape and digit and the width of every blank; `TextAt` says which texts have which tree,
 * so a text is well formed exactly when it has one.
 *
 * A text is a sequence of bytes. Each byte is written as the character with the same
 * number, which is also how the detector turns an unescaped byte into a character.
 */
module JsonGrammar {
  import opened Wrappers
  import opened Ordering

  type Bytes = string

  // ---- Blanks, digits and escapes ----

  predicate IsBlank(c: char) {
    c == ' ' || c == '\t' || c == '\n' || c == '\r'
  }

  /** The byte `c` stands in `s` at position `i`. */
  predicate Byte(s: Bytes, i: nat, c: char) {
    i < |s| && s[i] == c
  }

  /** `width` blank bytes stand in `s` from position `i`. */
  predicate Blanks(s: Bytes, i: nat, width: nat) {
    i + width <= |s| && forall k :: i <= k < i + width ==> IsBlank(s[k])
  }

  /** The word `w` stands in `s` from position `i`. */
  predicate Word(s: Bytes, i: nat, w: Bytes) {
    i + |w| <= |s| && forall k :: 0 <= k < |w| ==> s[i + k] == w[k]
  }

  predicate IsDigit(c: char) {
    '0' <= c <= '9'
  }

  predicate AllDigits(d: Bytes) {
    |d| > 0 && forall i :: 0 <= i < |d| ==> IsDigit(d[i])
  }

  predicate IsHex(c: char) {
    IsDigit(c) || 'a' <= c <= 'f' || 'A' <= c <= 'F'
  }

  function HexValue(c: char): (v: nat)
    requires IsHex(c)
    ensures v < 16
  {
    if IsDigit(c) then c as int - '0' as int
    else if 'a' <= c <= 'f' then c as int - 'a' as int + 10
    else c as int - 'A' as int + 10
  }

  /** One character of a JSON string as it is written down. */
  datatype Piece =
    | Raw(c: char)                                  // the byte itself
    | Short(c: char)                                // a backslash and one letter
    | Unicode(a: char, b: char, c: char, d: char)   // backslash, u, four hex digits

  predicate IsShortEscape(c: char) {
    c in "\"\\/bfnrt"
  }

  predicate PieceOk(p: Piece) {
    match p
    case Raw(c) => ' ' <= c && c != '\"' && c != '\\'
    case Short(c) => IsShortEscape(c)
    case Unicode(a, b, c, d) => IsHex(a) && IsHex(b) && IsHex(c) && IsHex(d)
  }

  predicate PiecesOk(ps: seq<Piece>) {
    forall i :: 0 <= i < |ps| ==> PieceOk(ps[i])
  }

  function PieceLength(p: Piece): (n: nat)
    ensures n > 0
  {
    match p
    case Raw(_) => 1
    case Short(_) => 2
    case Unicode(_, _, _, _) => 6
  }

  predicate PieceAt(s: Bytes, i: nat, p: Piece) {
    match p
    case Raw(c) => Byte(s, i, c)
    case Short(c) => Byte(s, i, '\\') && Byte(s, i + 1, c)
    case Unicode(a, b, c, d) =>
      && Byte(s, i, '\\') && Byte(s, i + 1, 'u')
      && Byte(s, i + 2, a) && Byte(s, i + 3, b) && Byte(s, i + 4, c) && Byte(s, i + 5, d)
  }

  function PiecesLength(ps: seq<Piece>): nat {
    if ps == [] then 0 else PieceLength(ps[0]) + PiecesLength(ps[1..])
  }

  predicate PiecesAt(s: Bytes, i: nat, ps: seq<Piece>)
    decreases ps
  {
    ps == [] || (PieceAt(s, i, ps[0]) && PiecesAt(s, i + PieceLength(ps[0]), ps[1..]))
  }

  function QuotedLength(ps: seq<Piece>): nat {
    PiecesLength(ps) + 2
  }

  predicate QuotedAt(s: Bytes, i: nat, ps: seq<Piece>) {
    Byte(s, i, '\"') && PiecesAt(s, i + 1, ps) && Byte(s, i + 1 + PiecesLength(ps), '\"')
  }

  function CodeUnit(a: char, b: char, c: char, d: char): (code: nat)
    requires IsHex(a) && IsHex(b) && IsHex(c) && IsHex(d)
    ensures code < 0x10000
  {
    ((HexValue(a) * 16 + HexValue(b)) * 16 + HexValue(c)) * 16 + HexValue(d)
  }

  predicate IsSurrogateCode(code: nat) {
    0xD800 <= code < 0xE000
  }

  predicate IsSurrogate(p: Piece)
    requires PieceOk(p)
  {
    p.Unicode? && IsSurrogateCode(CodeUnit(p.a, p.b, p.c, p.d))
  }

  predicate HasSurrogate(ps: seq<Piece>)
    requires PiecesOk(ps)
  {
    exists i :: 0 <= i < |ps| && IsSurrogate(ps[i])
  }

  function ShortMeaning(c: char): char
    requires IsShortEscape(c)
  {
    match c
    case 'b' => '\U{0008}'
    case 'f' => '\U{000C}'
    case 'n' => '\n'
    case 'r' => '\r'
    case 't' => '\t'
    case _ => c
  }

  /** The character a piece stands for. A surrogate code unit stands for no character. */
  function Meaning(p: Piece): char
    requires PieceOk(p)
  {
    match p
    case Raw(c) => c
    case Short(c) => ShortMeaning(c)
    case Unicode(a, b, c, d) =>
      var code := CodeUnit(a, b, c, d);
      if IsSurrogateCode(code) then '\U{FFFD}' else code as char
  }

  function Decode(ps: seq<Piece>): (text: string)
    requires PiecesOk(ps)
  {
    if ps == [] then [] else [Meaning(ps[0])] + Decode(ps[1..])
  }

  // ---- Numbers ----

  datatype Exponent = Exponent(mark: char, sign: Bytes, digits: Bytes)

  datatype Numeral = Numeral(minus: bool, integer: Bytes, fraction: Option<Bytes>, exponent: Option<Exponent>)

  predicate NumeralOk(n: Numeral) {
    && AllDigits(n.integer)
    && (n.integer[0] == '0' ==> |n.integer| == 1)
    && (n.fraction.Some? ==> AllDigits(n.fraction.value))
    && (n.exponent.Some? ==>
          var e := n.exponent.value;
          (e.mark == 'e' || e.mark == 'E') && e.sign in {"", "+", "-"} && AllDigits(e.digits))
  }

  function PrintNumeral(n: Numeral): Bytes {
    (if n.minus then "-" else "") + n.integer
    + (if n.fraction.Some? then "." + n.fraction.value else "")
    + (if n.exponent.Some?
       then [n.exponent.value.mark] + n.exponent.value.sign + n.exponent.value.digits
       else "")
  }

  // ---- Values ----

  datatype Value =
    | String(pieces: seq<Piece>)
    | Number(numeral: Numeral)
    | Literal(word: Bytes)
    | Array(gap: nat, items: Items)
    | Object(gap: nat, members: Members)

  /** The items of an array; `gap` is the blank after the comma that follows an item. */
  datatype Items = NoItems | Item(value: Value, after: nat, gap: nat, rest: Items)

  datatype Members =
    | NoMembers
    | Member(name: seq<Piece>, beforeColon: nat, afterColon: nat, value: Value, after: nat, gap: nat,
             rest: Members)

  datatype Text = Text(lead: nat, value: Value, trail: nat)

  predicate ValueOk(v: Value) {
    match v
    case String(ps) => PiecesOk(ps)
    case Number(n) => NumeralOk(n)
    case Literal(w) => w in {"true", "false", "null"}
    case Array(_, items) => ItemsOk(items)
    case Object(_, members) => MembersOk(members)
  }

  predicate ItemsOk(items: Items) {
    items.Item? ==> ValueOk(items.value) && ItemsOk(items.rest)
  }

  predicate MembersOk(members: Members) {
    members.Member? ==> PiecesOk(members.name) && ValueOk(members.value) && MembersOk(members.rest)
  }

  function ValueLength(v: Value): nat {
    match v
    case String(ps) => QuotedLength(ps)
    case Number(n) => |PrintNumeral(n)|
    case Literal(w) => |w|
    case Array(gap, items) => 1 + gap + ItemsLength(items) + 1
    case Object(gap, members) => 1 + gap + MembersLength(members) + 1
  }

  function ItemsLength(items: Items): nat {
    match items
    case NoItems => 0
    case Item(v, after, gap, rest) =>
      ValueLength(v) + after + (if rest.NoItems? then 0 else 1 + gap + ItemsLength(rest))
  }

  function MemberLength(name: seq<Piece>, beforeColon: nat, afterColon: nat, v: Value): nat {
    QuotedLength(name) + beforeColon + 1 + afterColon + ValueLength(v)
  }

  function MembersLength(members: Members): nat {
    match members
    case NoMembers => 0
    case Member(name, before, afterColon, v, after, gap, rest) =>
      QuotedLength(name) + before + 1 + afterColon + ValueLength(v) + after
      + (if rest.NoMembers? then 0 else 1 + gap + MembersLength(rest))
  }

  /** The text of `v` stands in `s` from position `i`. */
  predicate ValueAt(s: Bytes, i: nat, v: Value)
    decreases v, 0
  {
    match v
    case String(ps) => QuotedAt(s, i, ps)
    case Number(n) => Word(s, i, PrintNumeral(n))
    case Literal(w) => Word(s, i, w)
    case Array(gap, items) =>
      && Byte(s, i, '[') && Blanks(s, i + 1, gap) && ItemsAt(s, i + 1 + gap, items)
      && Byte(s, i + 1 + gap + ItemsLength(items), ']')
    case Object(gap, members) =>
      && Byte(s, i, '{') && Blanks(s, i + 1, gap) && MembersAt(s, i + 1 + gap, members)
      && Byte(s, i + 1 + gap + MembersLength(members), '}')
  }

  predicate ItemsAt(s: Bytes, i: nat, items: Items)
    decreases items, 0
  {
    match items
    case NoItems => true
    case Item(v, after, gap, rest) =>
      var end := i + ValueLength(v) + after;
      && ValueAt(s, i, v) && Blanks(s, i + ValueLength(v), after)
      && (rest.Item? ==> Byte(s, end, ',') && Blanks(s, end + 1, gap) && ItemsAt(s, end + 1 + gap, rest))
  }

  /** A name, a colon, and the value `v` stand in `s` from position `i`. */
  predicate MemberAt(s: Bytes, i: nat, name: seq<Piece>, before: nat, afterColon: nat, v: Value)
    decreases v, 1
  {
    var colon := i + QuotedLength(name) + before;
    && QuotedAt(s, i, name) && Blanks(s, i + QuotedLength(name), before)
    && Byte(s, colon, ':') && Blanks(s, colon + 1, afterColon) && ValueAt(s, colon + 1 + afterColon, v)
  }

  predicate MembersAt(s: Bytes, i: nat, members: Members)
    decreases members, 0
  {
    match members
    case NoMembers => true
    case Member(name, before, afterColon, v, after, gap, rest) =>
      var last := i + MemberLength(name, before, afterColon, v);
      var end := last + after;
      && MemberAt(s, i, name, before, afterColon, v) && Blanks(s, last, after)
      && (rest.Member? ==> Byte(s, end, ',') && Blanks(s, end + 1, gap) && MembersAt(s, end + 1 + gap, rest))
  }

  /** The whole of `s` is a JSON text with syntax tree `t`. */
  predicate TextAt(s: Bytes, t: Text) {
    && ValueOk(t.value)
    && Blanks(s, 0, t.lead) && ValueAt(s, t.lead, t.value)
    && Blanks(s, t.lead + ValueLength(t.value), t.trail)
    && |s| == t.lead + ValueLength(t.value) + t.trail
  }

  // ---- What the texts mean for duplicate detection ----

  function Names(members: Members): (names: seq<string>)
    requires MembersOk(members)
  {
    if members.NoMembers? then [] else [Decode(members.name)] + Names(members.rest)
  }

  /** No object, at any depth, has two members whose decoded names are equal. */
  predicate NoDuplicates(v: Value)
    requires ValueOk(v)
  {
    match v
    case Array(_, items) => NoDuplicateItems(items)
    case Object(_, members) => NoRepeats(Names(members)) && NoDuplicateMembers(members)
    case _ => true
  }

  predicate NoDuplicateItems(items: Items)
    requires ItemsOk(items)
  {
    items.Item? ==> NoDuplicates(items.value) && NoDuplicateItems(items.rest)
  }

  predicate NoDuplicateMembers(members: Members)
    requires MembersOk(members)
  {
    members.Member? ==> NoDuplicates(members.value) && NoDuplicateMembers(members.rest)
  }

  /** No string, name or value, contains an escape of a surrogate code unit. */
  predicate NoSurrogates(v: Value)
    requires ValueOk(v)
  {
    match v
    case String(ps) => !HasSurrogate(ps)
    case Array(_, items) => NoSurrogateItems(items)
    case Object(_, members) => NoSurrogateMembers(members)
    case _ => true
  }

  predicate NoSurrogateItems(items: Items)
    requires ItemsOk(items)
  {
    items.Item? ==> NoSurrogates(items.value) && NoSurrogateItems(items.rest)
  }

  predicate NoSurrogateMembers(members: Members)
    requires MembersOk(members)
  {
    members.Member? ==>
      !HasSurrogate(members.name) && NoSurrogates(members.value) && NoSurrogateMembers(members.rest)
  }
}
