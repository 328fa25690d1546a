/**
 * The recursive-descent duplicate-key detector of lexicon-core/src/runtime/invocation.rs.
 *
 * `JsonKeyDetector` advances `index` over its input as the original does. Each method is
 * proved against a function on positions (`ScanValue` and its companions); what those
 * functions mean for JSON texts is proved in `DetectorTheorems`.
 */
module KeyDetector {
  import opened Wrappers
  import opened JsonGrammar

  datatype DetectorError =
    | EmptyDocument
    | UnexpectedToken(token: char)
    | TrailingCommaInArray
    | MissingArrayTerminator
    | DuplicateField(key: string)
    | TrailingCommaInObject
    | MissingObjectTerminator
    | UnterminatedEscape
    | UnterminatedUnicodeEscape
    | InvalidUnicodeEscape
    | InvalidCodepoint
    | UnsupportedEscape
    | UnescapedControlCharacter
    | UnterminatedString
    | InvalidLiteral(expected: Bytes)
    | TrailingContent
    | ExpectedToken(token: char)

  /** The outcome of scanning from a position: a value and the next position, or an error. */
  datatype Scan<+T> = Good(value: T, next: nat) | Bad(error: DetectorError) {
    predicate IsFailure() { Bad? }

    function PropagateFailure<U>(): Scan<U>
      requires Bad?
    {
      Bad(error)
    }

    function Extract(): (T, nat)
      requires Good?
    {
      (value, next)
    }
  }

  /** The blanks `u8::is_ascii_whitespace` accepts: those of JSON, and the form feed. */
  predicate IsAsciiWhitespace(c: char) {
    IsBlank(c) || c == '\U{000C}'
  }

  predicate IsNumberByte(c: char) {
    IsDigit(c) || c in "-+.eE"
  }

  // ---- Scanning functions ----

  function SkipWhitespace(s: Bytes, i: nat): (j: nat)
    requires i <= |s|
    ensures i <= j <= |s|
    ensures j < |s| ==> !IsAsciiWhitespace(s[j])
    decreases |s| - i
  {
    if i < |s| && IsAsciiWhitespace(s[i]) then SkipWhitespace(s, i + 1) else i
  }

  function Consume(s: Bytes, i: nat, expected: char): (r: Scan<()>)
    requires i <= |s|
    ensures r.Good? ==> i < r.next <= |s| && s[r.next - 1] == expected
  {
    var j := SkipWhitespace(s, i);
    if j < |s| && s[j] == expected then Good((), j + 1) else Bad(ExpectedToken(expected))
  }

  /** Four hexadecimal digits, read one by one onto `code`. */
  function ScanHex(s: Bytes, i: nat, left: nat, code: nat): (r: Scan<nat>)
    requires i <= |s|
    ensures r.Good? ==> r.next == i + left <= |s|
    decreases left
  {
    if left == 0 then Good(code, i)
    else if i >= |s| then Bad(UnterminatedUnicodeEscape)
    else if !IsHex(s[i]) then Bad(InvalidUnicodeEscape)
    else ScanHex(s, i + 1, left - 1, code * 16 + HexValue(s[i]))
  }

  predicate IsScalar(code: nat) {
    code < 0xD800 || 0xE000 <= code < 0x11_0000
  }

  /** One escape sequence; `i` is the position after the backslash. */
  function ScanEscape(s: Bytes, i: nat): (r: Scan<char>)
    requires i <= |s|
    ensures r.Good? ==> i < r.next <= |s|
  {
    if i >= |s| then Bad(UnterminatedEscape)
    else if s[i] == 'u' then
      var (code, next) :- ScanHex(s, i + 1, 4, 0);
      if IsScalar(code) then Good(code as char, next) else Bad(InvalidCodepoint)
    else if IsShortEscape(s[i]) then Good(ShortMeaning(s[i]), i + 1)
    else Bad(UnsupportedEscape)
  }

  /** The rest of a string after its opening quote; `text` is what has been read so far. */
  function ScanStringRest(s: Bytes, i: nat, text: string): (r: Scan<string>)
    requires i <= |s|
    ensures r.Good? ==> i < r.next <= |s|
    decreases |s| - i
  {
    if i >= |s| then Bad(UnterminatedString)
    else if s[i] == '\"' then Good(text, i + 1)
    else if s[i] == '\\' then
      var (c, next) :- ScanEscape(s, i + 1);
      ScanStringRest(s, next, text + [c])
    else if s[i] < ' ' then Bad(UnescapedControlCharacter)
    else ScanStringRest(s, i + 1, text + [s[i]])
  }

  function ScanString(s: Bytes, i: nat): (r: Scan<string>)
    requires i <= |s|
    ensures r.Good? ==> i < r.next <= |s|
  {
    var (_, next) :- Consume(s, i, '\"');
    ScanStringRest(s, next, "")
  }

  function ScanNumber(s: Bytes, i: nat): (j: nat)
    requires i <= |s|
    ensures i <= j <= |s|
    ensures i < |s| && IsNumberByte(s[i]) ==> i < j
    decreases |s| - i
  {
    if i < |s| && IsNumberByte(s[i]) then ScanNumber(s, i + 1) else i
  }

  function ScanLiteral(s: Bytes, i: nat, expected: Bytes): (r: Scan<()>)
    requires i <= |s|
    ensures r.Good? ==> r.next == i + |expected| <= |s|
  {
    if Word(s, i, expected) then Good((), i + |expected|) else Bad(InvalidLiteral(expected))
  }

  /** What follows an item or a member: another one, the closing bracket, or an error. */
  datatype AfterElement = More(next: nat) | Closed(next: nat) | TrailingComma | Missing

  function Separator(s: Bytes, i: nat, close: char): (r: AfterElement)
    requires i <= |s|
    ensures r.More? || r.Closed? ==> i < r.next <= |s|
  {
    var j := SkipWhitespace(s, i);
    if j < |s| && s[j] == ',' then
      var k := SkipWhitespace(s, j + 1);
      if k < |s| && s[k] == close then TrailingComma else More(k)
    else if j < |s| && s[j] == close then Closed(j + 1)
    else Missing
  }

  function ScanValue(s: Bytes, i: nat): (r: Scan<()>)
    requires i <= |s|
    ensures r.Good? ==> i < r.next <= |s|
    decreases |s| - i, 3
  {
    var j := SkipWhitespace(s, i);
    if j >= |s| then Bad(EmptyDocument)
    else if s[j] == '{' then ScanObject(s, j)
    else if s[j] == '[' then ScanArray(s, j)
    else if s[j] == '\"' then
      var (_, next) :- ScanString(s, j);
      Good((), next)
    else if s[j] == '-' || IsDigit(s[j]) then Good((), ScanNumber(s, j))
    else if s[j] == 't' then ScanLiteral(s, j, "true")
    else if s[j] == 'f' then ScanLiteral(s, j, "false")
    else if s[j] == 'n' then ScanLiteral(s, j, "null")
    else Bad(UnexpectedToken(s[j]))
  }

  function ScanArray(s: Bytes, i: nat): (r: Scan<()>)
    requires i <= |s|
    ensures r.Good? ==> i < r.next <= |s|
    decreases |s| - i, 2
  {
    var (_, open) :- Consume(s, i, '[');
    var j := SkipWhitespace(s, open);
    if j < |s| && s[j] == ']' then Good((), j + 1) else ScanItems(s, j)
  }

  function ScanItems(s: Bytes, i: nat): (r: Scan<()>)
    requires i <= |s|
    ensures r.Good? ==> i < r.next <= |s|
    decreases |s| - i, 4
  {
    var (_, end) :- ScanValue(s, i);
    match Separator(s, end, ']')
    case More(next) => ScanItems(s, next)
    case Closed(next) => Good((), next)
    case TrailingComma => Bad(TrailingCommaInArray)
    case Missing => Bad(MissingArrayTerminator)
  }

  function ScanObject(s: Bytes, i: nat): (r: Scan<()>)
    requires i <= |s|
    ensures r.Good? ==> i < r.next <= |s|
    decreases |s| - i, 2
  {
    var (_, open) :- Consume(s, i, '{');
    var j := SkipWhitespace(s, open);
    if j < |s| && s[j] == '}' then Good((), j + 1) else ScanMembers(s, j, {})
  }

  /** One member, name and value; the name must not be in `seen`. */
  function ScanMember(s: Bytes, i: nat, seen: set<string>): (r: Scan<string>)
    requires i <= |s|
    ensures r.Good? ==> i < r.next <= |s|
    decreases |s| - i, 4
  {
    var (key, afterKey) :- ScanString(s, i);
    if key in seen then Bad(DuplicateField(key)) else
    var (_, afterColon) :- Consume(s, afterKey, ':');
    var (_, end) :- ScanValue(s, afterColon);
    Good(key, end)
  }

  function ScanMembers(s: Bytes, i: nat, seen: set<string>): (r: Scan<()>)
    requires i <= |s|
    ensures r.Good? ==> i < r.next <= |s|
    decreases |s| - i, 5
  {
    var (key, end) :- ScanMember(s, i, seen);
    match Separator(s, end, '}')
    case More(next) => ScanMembers(s, next, seen + {key})
    case Closed(next) => Good((), next)
    case TrailingComma => Bad(TrailingCommaInObject)
    case Missing => Bad(MissingObjectTerminator)
  }

  /** The verdict on a whole input. */
  function Verdict(s: Bytes): Result<(), DetectorError> {
    match ScanValue(s, 0)
    case Bad(e) => Err(e)
    case Good(_, next) => if SkipWhitespace(s, next) == |s| then Ok(()) else Err(TrailingContent)
  }

  // ---- The detector ----

  class JsonKeyDetector {
    const input: Bytes
    var index: nat

    constructor (input: Bytes)
      ensures this.input == input && index == 0
    {
      this.input := input;
      index := 0;
    }

    predicate Valid()
      reads this
    {
      index <= |input|
    }

    /** A method with outcome `r` has done what `scan` says and stands where it says. */
    ghost predicate Follows<T>(r: Result<T, DetectorError>, scan: Scan<T>)
      reads this
    {
      match scan
      case Good(value, next) => r == Ok(value) && index == next
      case Bad(error) => r == Err(error)
    }

    method SkipBlank()
      requires Valid()
      modifies this
      ensures Valid() && index == SkipWhitespace(input, old(index))
    {
      while index < |input| && IsAsciiWhitespace(input[index])
        invariant Valid()
        invariant SkipWhitespace(input, index) == SkipWhitespace(input, old(index))
      {
        index := index + 1;
      }
    }

    method ConsumeToken(expected: char) returns (r: Result<(), DetectorError>)
      requires Valid()
      modifies this
      ensures Valid() && Follows(r, Consume(input, old(index), expected))
    {
      SkipBlank();
      if index < |input| && input[index] == expected {
        index := index + 1;
        return Ok(());
      }
      return Err(ExpectedToken(expected));
    }

    method ConsumeIf(expected: char) returns (found: bool)
      requires Valid()
      modifies this
      ensures Valid()
      ensures var j := SkipWhitespace(input, old(index));
              found == (j < |input| && input[j] == expected) && index == if found then j + 1 else j
    {
      SkipBlank();
      found := index < |input| && input[index] == expected;
      if found {
        index := index + 1;
      }
    }

    method ParseUnicodeEscape() returns (r: Result<char, DetectorError>)
      requires Valid() && index < |input| && input[index] == 'u'
      modifies this
      ensures Valid() && Follows(r, ScanEscape(input, old(index)))
    {
      index := index + 1;
      var code: nat := 0;
      ghost var whole := ScanHex(input, index, 4, 0);
      for digit := 0 to 4
        invariant Valid()
        invariant whole == ScanHex(input, index, 4 - digit, code)
      {
        if index >= |input| {
          return Err(UnterminatedUnicodeEscape);
        }
        if !IsHex(input[index]) {
          return Err(InvalidUnicodeEscape);
        }
        code := code * 16 + HexValue(input[index]);
        index := index + 1;
      }
      if !IsScalar(code) {
        return Err(InvalidCodepoint);
      }
      return Ok(code as char);
    }

    method ParseString() returns (r: Result<string, DetectorError>)
      requires Valid()
      modifies this
      ensures Valid() && Follows(r, ScanString(input, old(index)))
    {
      hide ScanHex, SkipWhitespace, ShortMeaning;
      var _ :- ConsumeToken('\"');
      var value := "";
      while index < |input|
        invariant Valid()
        invariant ScanString(input, old(index)) == ScanStringRest(input, index, value)
        decreases |input| - index
      {
        var byte := input[index];
        if byte == '\"' {
          index := index + 1;
          return Ok(value);
        } else if byte == '\\' {
          index := index + 1;
          if index >= |input| {
            return Err(UnterminatedEscape);
          }
          var escaped := input[index];
          if escaped == 'u' {
            var c :- ParseUnicodeEscape();
            value := value + [c];
          } else if IsShortEscape(escaped) {
            value := value + [ShortMeaning(escaped)];
            index := index + 1;
          } else {
            return Err(UnsupportedEscape);
          }
        } else if byte < ' ' {
          return Err(UnescapedControlCharacter);
        } else {
          value := value + [byte];
          index := index + 1;
        }
      }
      return Err(UnterminatedString);
    }

    method ParseNumber()
      requires Valid()
      modifies this
      ensures Valid() && index == ScanNumber(input, old(index))
    {
      while index < |input| && IsNumberByte(input[index])
        invariant Valid()
        invariant ScanNumber(input, index) == ScanNumber(input, old(index))
      {
        index := index + 1;
      }
    }

    method ParseLiteral(expected: Bytes) returns (r: Result<(), DetectorError>)
      requires Valid()
      modifies this
      ensures Valid() && Follows(r, ScanLiteral(input, old(index), expected))
    {
      var end := index + |expected|;
      if end > |input| || input[index..end] != expected {
        return Err(InvalidLiteral(expected));
      }
      index := end;
      return Ok(());
    }

    method ParseValue() returns (r: Result<(), DetectorError>)
      requires Valid()
      modifies this
      ensures Valid() && Follows(r, ScanValue(input, old(index)))
      decreases |input| - index, 3
    {
      SkipBlank();
      if index >= |input| {
        return Err(EmptyDocument);
      }
      var token := input[index];
      if token == '{' {
        r := ParseObject();
      } else if token == '[' {
        r := ParseArray();
      } else if token == '\"' {
        var _ :- ParseString();
        r := Ok(());
      } else if token == '-' || IsDigit(token) {
        ParseNumber();
        r := Ok(());
      } else if token == 't' {
        r := ParseLiteral("true");
      } else if token == 'f' {
        r := ParseLiteral("false");
      } else if token == 'n' {
        r := ParseLiteral("null");
      } else {
        r := Err(UnexpectedToken(token));
      }
    }

    /** The part of `parse_array` and `parse_object` that follows each element. */
    method ParseSeparator(close: char) returns (r: AfterElement)
      requires Valid()
      modifies this
      ensures Valid() && r == Separator(input, old(index), close)
      ensures r.More? || r.Closed? ==> index == r.next
    {
      SkipBlank();
      var more := ConsumeIf(',');
      if more {
        SkipBlank();
        var trailing := ConsumeIf(close);
        return if trailing then TrailingComma else More(index);
      }
      var closed := ConsumeIf(close);
      return if closed then Closed(index) else Missing;
    }

    method ParseArray() returns (r: Result<(), DetectorError>)
      requires Valid()
      modifies this
      ensures Valid() && Follows(r, ScanArray(input, old(index)))
      decreases |input| - index, 2
    {
      ghost var start := index;
      var _ :- ConsumeToken('[');
      SkipBlank();
      var empty := ConsumeIf(']');
      if empty {
        return Ok(());
      }
      while true
        invariant Valid() && start < index
        invariant ScanArray(input, start) == ScanItems(input, index)
        decreases |input| - index
      {
        var _ :- ParseValue();
        var after := ParseSeparator(']');
        match after {
          case More(_) => continue;
          case Closed(_) => return Ok(());
          case TrailingComma => return Err(TrailingCommaInArray);
          case Missing => return Err(MissingArrayTerminator);
        }
      }
    }

    method ParseMember(seen: set<string>) returns (r: Result<string, DetectorError>)
      requires Valid()
      modifies this
      ensures Valid() && Follows(r, ScanMember(input, old(index), seen))
      decreases |input| - index, 4
    {
      var key :- ParseString();
      if key in seen {
        return Err(DuplicateField(key));
      }
      SkipBlank();
      var _ :- ConsumeToken(':');
      var _ :- ParseValue();
      return Ok(key);
    }

    method ParseObject() returns (r: Result<(), DetectorError>)
      requires Valid()
      modifies this
      ensures Valid() && Follows(r, ScanObject(input, old(index)))
      decreases |input| - index, 2
    {
      ghost var start := index;
      var _ :- ConsumeToken('{');
      SkipBlank();
      var empty := ConsumeIf('}');
      if empty {
        return Ok(());
      }
      var seen: set<string> := {};
      while true
        invariant Valid() && start < index
        invariant ScanObject(input, start) == ScanMembers(input, index, seen)
        decreases |input| - index
      {
        var key :- ParseMember(seen);
        seen := seen + {key};
        var after := ParseSeparator('}');
        match after {
          case More(_) => continue;
          case Closed(_) => return Ok(());
          case TrailingComma => return Err(TrailingCommaInObject);
          case Missing => return Err(MissingObjectTerminator);
        }
      }
    }

    method Finish() returns (r: Result<(), DetectorError>)
      requires Valid()
      modifies this
      ensures Valid()
      ensures r == if SkipWhitespace(input, old(index)) == |input| then Ok(()) else Err(TrailingContent)
    {
      SkipBlank();
      if index != |input| {
        return Err(TrailingContent);
      }
      return Ok(());
    }
  }

  method RejectDuplicateObjectKeys(input: Bytes) returns (r: Result<(), DetectorError>)
    ensures r == Verdict(input)
  {
    var parser := new JsonKeyDetector(input);
    var _ :- parser.ParseValue();
    r := parser.Finish();
  }
}
