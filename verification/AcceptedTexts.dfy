/**
 * Exactly which byte strings the recursive-descent detector accepts, well formed or not.
 *
 * A `Form` is a syntax tree of what the detector takes for JSON. It is more lenient than RFC 8259 in two
 * ways: a form feed counts as blank, and any run of number bytes that begins like a number is one. A form
 * notes the positions of its parts, and `Spans` says that it is written between two positions of a text.
 */
module AcceptedTexts {
  import opened Wrappers
  import opened Ordering
  import opened JsonGrammar
  import opened KeyDetector
  import opened DetectorTheorems

  type Pieces = ps: seq<Piece> | PiecesOk(ps)

  datatype Form =
    | Quoted(pieces: Pieces)
    | Keyword(word: Bytes)
    | Digits
    | List(items: Forms)
    | Dictionary(entries: Entries)

  /** An item stands from `from` to `to`; another one follows the comma at `comma`, if there is one. */
  datatype Forms = NoForms | Element(from: nat, value: Form, to: nat, comma: nat, rest: Forms)

  datatype Entries =
    | NoEntries
    | Entry(start: nat, name: Pieces, colon: nat, from: nat, value: Form, to: nat, comma: nat, rest: Entries)

  /** Nothing but blanks, or form feeds, from `i` to `j`. */
  predicate Gap(s: Bytes, i: nat, j: nat) {
    i <= j <= |s| && forall k :: i <= k < j ==> IsBlank(s[k]) || s[k] == '\U{000C}'
  }

  /** A run of digits, signs, points and exponent marks, as long as it goes on, that begins like a number. */
  predicate NumberRun(s: Bytes, i: nat, j: nat) {
    && i < j <= |s| && (s[i] == '-' || IsDigit(s[i]))
    && (forall k :: i <= k < j ==> IsDigit(s[k]) || s[k] in "-+.eE")
    && (j < |s| ==> !IsDigit(s[j]) && s[j] !in "-+.eE")
  }

  /** The form is written in `s` from `i` to `j`. */
  predicate Spans(s: Bytes, i: nat, j: nat, form: Form)
    decreases form, 0
  {
    match form
    case Quoted(ps) => QuotedAt(s, i, ps) && j == i + QuotedLength(ps)
    case Keyword(w) => w in {"true", "false", "null"} && Word(s, i, w) && j == i + |w|
    case Digits => NumberRun(s, i, j)
    case List(items) => i + 2 <= j && Byte(s, i, '[') && Byte(s, j - 1, ']') && ItemsSpan(s, i + 1, j - 1, items)
    case Dictionary(entries) =>
      i + 2 <= j && Byte(s, i, '{') && Byte(s, j - 1, '}') && EntriesSpan(s, i + 1, j - 1, entries)
  }

  predicate ItemsSpan(s: Bytes, i: nat, j: nat, items: Forms)
    decreases items, 0
  {
    match items
    case NoForms => Gap(s, i, j)
    case Element(from, value, to, comma, rest) =>
      && Gap(s, i, from) && Spans(s, from, to, value)
      && if rest.NoForms? then Gap(s, to, j)
         else Gap(s, to, comma) && Byte(s, comma, ',') && ItemsSpan(s, comma + 1, j, rest)
  }

  predicate EntriesSpan(s: Bytes, i: nat, j: nat, entries: Entries)
    decreases entries, 0
  {
    match entries
    case NoEntries => Gap(s, i, j)
    case Entry(start, name, colon, from, value, to, comma, rest) =>
      && Gap(s, i, start) && EntrySpans(s, start, name, colon, from, value, to)
      && if rest.NoEntries? then Gap(s, to, j)
         else Gap(s, to, comma) && Byte(s, comma, ',') && EntriesSpan(s, comma + 1, j, rest)
  }

  /** A name, a colon and a value. */
  predicate EntrySpans(s: Bytes, start: nat, name: Pieces, colon: nat, from: nat, value: Form, to: nat)
    decreases value, 1
  {
    && QuotedAt(s, start, name) && Gap(s, start + QuotedLength(name), colon) && Byte(s, colon, ':')
    && Gap(s, colon + 1, from) && Spans(s, from, to, value)
  }

  // ---- What is asked of a form beyond its syntax ----

  function EntryNames(entries: Entries): seq<string> {
    if entries.NoEntries? then [] else [Decode(entries.name)] + EntryNames(entries.rest)
  }

  /** No object repeats a decoded name, and no string escapes a surrogate, at any depth. */
  predicate Clean(form: Form) {
    match form
    case Quoted(ps) => !HasSurrogate(ps)
    case List(items) => CleanItems(items)
    case Dictionary(entries) => CleanEntries(entries) && NoRepeats(EntryNames(entries))
    case _ => true
  }

  predicate CleanItems(items: Forms) {
    items.Element? ==> Clean(items.value) && CleanItems(items.rest)
  }

  predicate CleanEntries(entries: Entries) {
    entries.Entry? ==> !HasSurrogate(entries.name) && Clean(entries.value) && CleanEntries(entries.rest)
  }

  /** The whole of `s` is a clean form with gaps around it. */
  ghost predicate Acceptable(s: Bytes) {
    exists from, to, form :: Gap(s, 0, from) && Spans(s, from, to, form) && Clean(form) && Gap(s, to, |s|)
  }

  // ---- Gaps ----

  lemma {:induction false} SkipIs(s: Bytes, i: nat, j: nat)
    requires Gap(s, i, j) && (j < |s| ==> !IsAsciiWhitespace(s[j]))
    ensures SkipWhitespace(s, i) == j
    decreases j - i
  {
    if i < j {
      SkipIs(s, i + 1, j);
    }
  }

  lemma {:induction false} Skipped(s: Bytes, i: nat)
    requires i <= |s|
    ensures Gap(s, i, SkipWhitespace(s, i))
    decreases |s| - i
  {
    if i < |s| && IsAsciiWhitespace(s[i]) {
      Skipped(s, i + 1);
    }
  }

  lemma GapJoin(s: Bytes, i: nat, k: nat, j: nat)
    requires Gap(s, i, k)
    ensures Gap(s, k, j) ==> Gap(s, i, j)
  {
  }

  lemma GapTail(s: Bytes, i: nat, k: nat, j: nat)
    requires Gap(s, i, j) && i <= k <= j
    ensures Gap(s, k, j)
  {
  }

  /** More blank before the first item is still blank, and less is too. */
  lemma ItemsMove(s: Bytes, i: nat, k: nat, j: nat, items: Forms)
    requires items.Element? && Gap(s, i, k) && k <= items.from
    ensures ItemsSpan(s, i, j, items) <==> ItemsSpan(s, k, j, items)
  {
    hide Spans;
    GapJoin(s, i, k, items.from);
    if ItemsSpan(s, i, j, items) {
      GapTail(s, i, k, items.from);
    }
  }

  lemma EntriesMove(s: Bytes, i: nat, k: nat, j: nat, entries: Entries)
    requires entries.Entry? && Gap(s, i, k) && k <= entries.start
    ensures EntriesSpan(s, i, j, entries) <==> EntriesSpan(s, k, j, entries)
  {
    hide EntrySpans;
    GapJoin(s, i, k, entries.start);
    if EntriesSpan(s, i, j, entries) {
      GapTail(s, i, k, entries.start);
    }
  }

  // ---- What is accepted has a form ----

  lemma {:induction false} HexRead(s: Bytes, i: nat, left: nat, code: nat)
    requires i <= |s| && ScanHex(s, i, left, code).Good?
    ensures i + left <= |s| && forall k :: i <= k < i + left ==> IsHex(s[k])
    decreases left
  {
    if left > 0 {
      HexRead(s, i + 1, left - 1, code * 16 + HexValue(s[i]));
    }
  }

  /** An escape that is read is a piece, and no surrogate. */
  lemma EscapeRead(s: Bytes, i: nat) returns (p: Piece)
    requires Byte(s, i, '\\') && ScanEscape(s, i + 1).Good?
    ensures PieceOk(p) && PieceAt(s, i, p) && !IsSurrogate(p)
    ensures ScanEscape(s, i + 1) == Good(Meaning(p), i + PieceLength(p))
  {
    if s[i + 1] == 'u' {
      HexRead(s, i + 2, 4, 0);
      ScanHexDigits(s, i + 2);
      p := Unicode(s[i + 2], s[i + 3], s[i + 4], s[i + 5]);
    } else {
      p := Short(s[i + 1]);
    }
  }

  lemma PiecesCons(s: Bytes, i: nat, p: Piece, ps: Pieces)
    requires PieceOk(p) && PieceAt(s, i, p) && !IsSurrogate(p)
    requires PiecesAt(s, i + PieceLength(p), ps) && !HasSurrogate(ps)
    ensures PiecesOk([p] + ps) && PiecesAt(s, i, [p] + ps) && !HasSurrogate([p] + ps)
    ensures PiecesLength([p] + ps) == PieceLength(p) + PiecesLength(ps)
    ensures Decode([p] + ps) == [Meaning(p)] + Decode(ps)
  {
    var all := [p] + ps;
    assert all[1..] == ps;
    SurrogateCons(all);
  }

  lemma {:induction false} StringRead(s: Bytes, i: nat, text: string) returns (ps: Pieces)
    requires i <= |s| && ScanStringRest(s, i, text).Good?
    ensures PiecesAt(s, i, ps) && !HasSurrogate(ps) && Byte(s, i + PiecesLength(ps), '\"')
    ensures ScanStringRest(s, i, text) == Good(text + Decode(ps), i + PiecesLength(ps) + 1)
    decreases |s| - i
  {
    hide HasSurrogate, PieceAt, PiecesAt, PiecesLength, Decode, Meaning, IsSurrogate, ScanEscape;
    if s[i] == '\"' {
      ps := [];
      NothingRead(s, i);
      assert text + Decode([]) == text;
    } else {
      var p := Raw(s[i]);
      if s[i] == '\\' {
        p := EscapeRead(s, i);
      } else {
        RawRead(s, i);
      }
      var rest := StringRead(s, i + PieceLength(p), text + [Meaning(p)]);
      PiecesCons(s, i, p, rest);
      ps := [p] + rest;
      assert text + [Meaning(p)] + Decode(rest) == text + ([Meaning(p)] + Decode(rest));
    }
  }

  lemma NothingRead(s: Bytes, i: nat)
    ensures PiecesAt(s, i, []) && PiecesLength([]) == 0 && Decode([]) == [] && !HasSurrogate([])
  {
  }

  lemma RawRead(s: Bytes, i: nat)
    requires i < |s| && ' ' <= s[i] && s[i] != '\"' && s[i] != '\\'
    ensures var p := Raw(s[i]); PieceOk(p) && PieceAt(s, i, p) && !IsSurrogate(p) && Meaning(p) == s[i]
  {
  }

  lemma NameRead(s: Bytes, i: nat) returns (start: nat, name: Pieces)
    requires i <= |s| && ScanString(s, i).Good?
    ensures Gap(s, i, start) && QuotedAt(s, start, name) && !HasSurrogate(name)
    ensures ScanString(s, i) == Good(Decode(name), start + QuotedLength(name))
  {
    Skipped(s, i);
    start := SkipWhitespace(s, i);
    name := StringRead(s, start + 1, "");
    assert "" + Decode(name) == Decode(name);
  }

  lemma {:induction false} DigitsRead(s: Bytes, i: nat)
    requires i <= |s|
    ensures var j := ScanNumber(s, i);
            (forall k :: i <= k < j ==> IsNumberByte(s[k])) && (j < |s| ==> !IsNumberByte(s[j]))
    decreases |s| - i
  {
    if i < |s| && IsNumberByte(s[i]) {
      DigitsRead(s, i + 1);
    }
  }

  /** What a separator was read from. */
  lemma SeparatorRead(s: Bytes, i: nat, close: char)
    requires i <= |s|
    ensures var r := Separator(s, i, close);
            && (r.More? ==> var comma := SkipWhitespace(s, i);
                            Gap(s, i, comma) && Byte(s, comma, ',') && Gap(s, comma + 1, r.next))
            && (r.Closed? ==> Gap(s, i, r.next - 1) && Byte(s, r.next - 1, close))
  {
    var j := SkipWhitespace(s, i);
    Skipped(s, i);
    if j < |s| {
      Skipped(s, j + 1);
    }
  }

  lemma {:induction false} ValueRead(s: Bytes, i: nat) returns (from: nat, form: Form)
    requires i <= |s| && ScanValue(s, i).Good?
    ensures Gap(s, i, from) && Spans(s, from, ScanValue(s, i).next, form) && Clean(form)
    decreases |s| - i, 3
  {
    hide ScanArray, ScanObject, ScanString, ItemsSpan, EntriesSpan, SkipWhitespace, HasSurrogate, Decode;
    from := SkipWhitespace(s, i);
    Skipped(s, i);
    if s[from] == '{' {
      form := DictionaryRead(s, from);
    } else if s[from] == '[' {
      form := ListRead(s, from);
    } else if s[from] == '\"' {
      var start, name := NameRead(s, from);
      form := Quoted(name);
    } else if s[from] == '-' || IsDigit(s[from]) {
      DigitsRead(s, from);
      form := Digits;
    } else {
      form := Keyword(if s[from] == 't' then "true" else if s[from] == 'f' then "false" else "null");
    }
  }

  lemma {:induction false} ListRead(s: Bytes, i: nat) returns (form: Form)
    requires Byte(s, i, '[') && ScanArray(s, i).Good?
    ensures Spans(s, i, ScanArray(s, i).next, form) && Clean(form)
    decreases |s| - i, 2
  {
    hide Gap, ScanItems, ItemsSpan, SkipWhitespace, CleanItems;
    OpensArray(s, i);
    var j := SkipWhitespace(s, i + 1);
    Skipped(s, i + 1);
    if j < |s| && s[j] == ']' {
      form := List(NoForms);
      assert ItemsSpan(s, i + 1, j, NoForms) && CleanItems(NoForms) by { NoItemsSpan(s, i + 1, j); }
    } else {
      var items := ItemsRead(s, j);
      ItemsMove(s, i + 1, j, ScanItems(s, j).next - 1, items);
      form := List(items);
    }
  }

  lemma OpensArray(s: Bytes, i: nat)
    requires Byte(s, i, '[')
    ensures var j := SkipWhitespace(s, i + 1);
            ScanArray(s, i) == if j < |s| && s[j] == ']' then Good((), j + 1) else ScanItems(s, j)
  {
  }

  lemma NoItemsSpan(s: Bytes, i: nat, j: nat)
    requires Gap(s, i, j)
    ensures ItemsSpan(s, i, j, NoForms) && CleanItems(NoForms)
    ensures EntriesSpan(s, i, j, NoEntries) && CleanEntries(NoEntries) && NoRepeats(EntryNames(NoEntries))
  {
  }

  lemma LastItem(s: Bytes, i: nat, from: nat, value: Form, to: nat, j: nat)
    requires Gap(s, i, from) && Spans(s, from, to, value) && Gap(s, to, j) && Clean(value)
    ensures ItemsSpan(s, i, j, Element(from, value, to, 0, NoForms))
    ensures CleanItems(Element(from, value, to, 0, NoForms))
  {
  }

  lemma MoreItems(s: Bytes, i: nat, from: nat, value: Form, to: nat, comma: nat, j: nat, rest: Forms)
    requires Gap(s, i, from) && Spans(s, from, to, value) && Gap(s, to, comma) && Byte(s, comma, ',') && Clean(value)
    requires rest.Element? && ItemsSpan(s, comma + 1, j, rest) && CleanItems(rest)
    ensures ItemsSpan(s, i, j, Element(from, value, to, comma, rest))
    ensures CleanItems(Element(from, value, to, comma, rest))
  {
  }

  lemma {:induction false} ItemsRead(s: Bytes, i: nat) returns (items: Forms)
    requires i <= |s| && ScanItems(s, i).Good?
    ensures var end := ScanItems(s, i).next - 1;
            && items.Element? && items.from >= i && ItemsSpan(s, i, end, items) && CleanItems(items)
            && Byte(s, end, ']') && i <= end
    decreases |s| - i, 4
  {
    hide ScanItems, ScanValue, ItemsSpan, Spans, Clean, CleanItems, Separator, SkipWhitespace;
    ScanItemsStep(s, i);
    var from, value := ValueRead(s, i);
    var to := ScanValue(s, i).next;
    SeparatorRead(s, to, ']');
    match Separator(s, to, ']') {
      case More(next) =>
        var rest := ItemsRead(s, next);
        var comma, end := SkipWhitespace(s, to), ScanItems(s, i).next - 1;
        ItemsMove(s, comma + 1, next, end, rest);
        MoreItems(s, i, from, value, to, comma, end, rest);
        items := Element(from, value, to, comma, rest);
      case Closed(next) =>
        LastItem(s, i, from, value, to, next - 1);
        items := Element(from, value, to, 0, NoForms);
    }
  }

  lemma {:induction false} DictionaryRead(s: Bytes, i: nat) returns (form: Form)
    requires Byte(s, i, '{') && ScanObject(s, i).Good?
    ensures Spans(s, i, ScanObject(s, i).next, form) && Clean(form)
    decreases |s| - i, 2
  {
    hide Gap, ScanMembers, EntriesSpan, SkipWhitespace, CleanEntries, EntryNames;
    OpensObject(s, i);
    var j := SkipWhitespace(s, i + 1);
    Skipped(s, i + 1);
    if j < |s| && s[j] == '}' {
      form := Dictionary(NoEntries);
      NoItemsSpan(s, i + 1, j);
    } else {
      var entries := EntriesRead(s, j, {});
      EntriesMove(s, i + 1, j, ScanMembers(s, j, {}).next - 1, entries);
      form := Dictionary(entries);
    }
  }

  lemma OpensObject(s: Bytes, i: nat)
    requires Byte(s, i, '{')
    ensures var j := SkipWhitespace(s, i + 1);
            ScanObject(s, i) == if j < |s| && s[j] == '}' then Good((), j + 1) else ScanMembers(s, j, {})
  {
  }

  lemma LastEntry(s: Bytes, i: nat, entry: Entries, j: nat, seen: set<string>)
    requires entry.Entry? && entry.rest.NoEntries? && Gap(s, i, entry.start) && Gap(s, entry.to, j)
    requires EntrySpans(s, entry.start, entry.name, entry.colon, entry.from, entry.value, entry.to)
    requires !HasSurrogate(entry.name) && Clean(entry.value) && Decode(entry.name) !in seen
    ensures EntriesSpan(s, i, j, entry) && CleanEntries(entry)
    ensures NoRepeats(EntryNames(entry)) && Disjoint(EntryNames(entry), seen)
  {
    hide Gap, Spans, EntrySpans, Decode;
    assert EntryNames(entry) == [Decode(entry.name)] + [];
    DistinctCons(Decode(entry.name), [], seen);
  }

  lemma MoreEntries(s: Bytes, i: nat, entry: Entries, j: nat, seen: set<string>)
    requires entry.Entry? && entry.rest.Entry? && Gap(s, i, entry.start) && Gap(s, entry.to, entry.comma)
    requires EntrySpans(s, entry.start, entry.name, entry.colon, entry.from, entry.value, entry.to)
    requires Byte(s, entry.comma, ',') && EntriesSpan(s, entry.comma + 1, j, entry.rest)
    requires !HasSurrogate(entry.name) && Clean(entry.value) && CleanEntries(entry.rest)
    requires Decode(entry.name) !in seen && NoRepeats(EntryNames(entry.rest))
    requires Disjoint(EntryNames(entry.rest), seen + {Decode(entry.name)})
    ensures EntriesSpan(s, i, j, entry) && CleanEntries(entry)
    ensures NoRepeats(EntryNames(entry)) && Disjoint(EntryNames(entry), seen)
  {
    hide Gap, Spans, EntrySpans, Decode;
    DistinctCons(Decode(entry.name), EntryNames(entry.rest), seen);
  }

  /** One member that is read, without its rest. */
  lemma {:induction false} EntryRead(s: Bytes, i: nat, seen: set<string>) returns (entry: Entries)
    requires i <= |s| && ScanMember(s, i, seen).Good?
    ensures var Good(key, to) := ScanMember(s, i, seen);
            && entry.Entry? && entry.rest.NoEntries? && entry.to == to && key == Decode(entry.name) && key !in seen
            && Gap(s, i, entry.start)
            && EntrySpans(s, entry.start, entry.name, entry.colon, entry.from, entry.value, to)
            && !HasSurrogate(entry.name) && Clean(entry.value)
    decreases |s| - i, 4
  {
    hide Spans, Clean, SkipWhitespace, ScanString, HasSurrogate, Decode;
    var start, name := NameRead(s, i);
    var afterName := start + QuotedLength(name);
    var colon := SkipWhitespace(s, afterName);
    Skipped(s, afterName);
    var from, value := ValueRead(s, colon + 1);
    entry := Entry(start, name, colon, from, value, ScanValue(s, colon + 1).next, 0, NoEntries);
  }

  lemma {:induction false} EntriesRead(s: Bytes, i: nat, seen: set<string>) returns (entries: Entries)
    requires i <= |s| && ScanMembers(s, i, seen).Good?
    ensures var end := ScanMembers(s, i, seen).next - 1;
            && entries.Entry? && entries.start >= i && EntriesSpan(s, i, end, entries)
            && Byte(s, end, '}') && i <= end
    ensures CleanEntries(entries) && NoRepeats(EntryNames(entries)) && Disjoint(EntryNames(entries), seen)
    decreases |s| - i, 5
  {
    hide ScanMembers, ScanMember, EntriesSpan, EntrySpans, Clean, CleanEntries, Separator, SkipWhitespace;
    hide EntryNames, HasSurrogate, Decode, Disjoint, NoRepeats;
    ScanMembersStep(s, i, seen);
    entries := EntryRead(s, i, seen);
    var to := entries.to;
    SeparatorRead(s, to, '}');
    match Separator(s, to, '}') {
      case More(next) =>
        var rest := EntriesRead(s, next, seen + {Decode(entries.name)});
        var comma, end := SkipWhitespace(s, to), ScanMembers(s, i, seen).next - 1;
        EntriesMove(s, comma + 1, next, end, rest);
        entries := entries.(comma := comma, rest := rest);
        MoreEntries(s, i, entries, end, seen);
      case Closed(next) =>
        LastEntry(s, i, entries, next - 1, seen);
    }
  }

  // ---- What has a form is accepted ----

  lemma FormFirst(s: Bytes, i: nat, j: nat, form: Form)
    requires Spans(s, i, j, form)
    ensures i < j <= |s| && !IsAsciiWhitespace(s[i]) && s[i] != ']' && s[i] != '}' && s[i] != ','
  {
    hide ItemsSpan, EntriesSpan;
    if form.Keyword? {
      assert s[i + 0] == form.word[0];
    }
  }

  lemma ScanAfterGap(s: Bytes, i: nat, from: nat)
    requires Gap(s, i, from) && from < |s| && !IsAsciiWhitespace(s[from])
    ensures ScanValue(s, i) == ScanValue(s, from)
  {
    SkipIs(s, i, from);
    SkipIs(s, from, from);
  }

  lemma SeparatorAfterGap(s: Bytes, i: nat, j: nat, close: char)
    requires Gap(s, i, j)
    ensures Separator(s, i, close) == Separator(s, j, close)
  {
    hide SkipWhitespace;
    var k := SkipWhitespace(s, j);
    Skipped(s, j);
    GapJoin(s, i, j, k);
    SkipIs(s, i, k);
  }

  lemma SeparatorIs(s: Bytes, i: nat, comma: nat, next: nat, close: char)
    requires Gap(s, i, comma) && Byte(s, comma, ',') && Gap(s, comma + 1, next)
    requires next < |s| && !IsAsciiWhitespace(s[next])
    ensures Separator(s, i, close) == if s[next] == close then TrailingComma else More(next)
  {
    SkipIs(s, i, comma);
    SkipIs(s, comma + 1, next);
  }

  lemma SeparatorCloses(s: Bytes, i: nat, close: char)
    requires Byte(s, i, close) && (close == ']' || close == '}')
    ensures Separator(s, i, close) == Closed(i + 1)
  {
    SkipIs(s, i, i);
  }

  lemma {:induction false} ValueScans(s: Bytes, i: nat, from: nat, to: nat, form: Form)
    requires Gap(s, i, from) && Spans(s, from, to, form) && Clean(form)
    ensures ScanValue(s, i) == Good((), to)
    decreases form, 1
  {
    hide ScanArray, ScanObject, ScanString, ItemsSpan, EntriesSpan, HasSurrogate, NoRepeats, Gap;
    FormFirst(s, from, to, form);
    ScanAfterGap(s, i, from);
    match form
    case Quoted(ps) => ScanQuoted(s, from, ps);
    case Keyword(w) => KeywordScans(s, from, w);
    case Digits => ScanNumberBytes(s, from, to - from);
    case List(items) => ListScans(s, from, to, items);
    case Dictionary(entries) => DictionaryScans(s, from, to, entries);
  }

  lemma NoElements(s: Bytes, i: nat, j: nat)
    ensures ItemsSpan(s, i, j, NoForms) || EntriesSpan(s, i, j, NoEntries) ==> Gap(s, i, j)
  {
  }

  lemma KeywordScans(s: Bytes, i: nat, w: Bytes)
    requires w in {"true", "false", "null"} && Word(s, i, w)
    ensures ScanValue(s, i) == Good((), i + |w|)
  {
    hide ScanArray, ScanObject, ScanString;
    assert s[i + 0] == w[0];
    SkipIs(s, i, i);
  }

  lemma {:induction false} ListScans(s: Bytes, i: nat, j: nat, items: Forms)
    requires i + 2 <= j && Byte(s, i, '[') && Byte(s, j - 1, ']') && ItemsSpan(s, i + 1, j - 1, items)
    requires CleanItems(items)
    ensures ScanValue(s, i) == Good((), j)
    decreases items, 1
  {
    hide ScanItems, ScanArray, ScanObject, ScanString, ItemsSpan, SkipWhitespace, CleanItems, Separator;
    OpensArray(s, i);
    SkipIs(s, i, i);
    if items.NoForms? {
      NoElements(s, i + 1, j - 1);
      SkipIs(s, i + 1, j - 1);
    } else {
      FirstOfRest(s, i + 1, j - 1, items);
      SkipIs(s, i + 1, items.from);
      ItemsMove(s, i + 1, items.from, j - 1, items);
      SeparatorCloses(s, j - 1, ']');
      ItemsScan(s, items.from, j - 1, items);
    }
  }

  /** The outcome of an array or object whose elements have all been read. */
  function Ending(after: AfterElement, trailing: DetectorError, missing: DetectorError): Scan<()>
    requires !after.More?
  {
    match after
    case Closed(next) => Good((), next)
    case TrailingComma => Bad(trailing)
    case Missing => Bad(missing)
  }

  lemma {:induction false} ItemsScan(s: Bytes, i: nat, j: nat, items: Forms)
    requires items.Element? && ItemsSpan(s, i, j, items) && CleanItems(items)
    requires j <= |s| && !Separator(s, j, ']').More?
    ensures i <= j && ScanItems(s, i) == Ending(Separator(s, j, ']'), TrailingCommaInArray, MissingArrayTerminator)
    decreases items, 0
  {
    hide ScanItems, ScanValue, Spans, Clean, Separator, Gap;
    var Element(from, value, to, comma, rest) := items;
    FormFirst(s, from, to, value);
    GapInOrder(s, i, from);
    ValueScans(s, i, from, to, value);
    ScanItemsStep(s, i);
    if rest.NoForms? {
      GapInOrder(s, to, j);
      SeparatorAfterGap(s, to, j, ']');
    } else {
      FirstOfRest(s, comma + 1, j, rest);
      SeparatorIs(s, to, comma, rest.from, ']');
      ItemsMove(s, comma + 1, rest.from, j, rest);
      ItemsScan(s, rest.from, j, rest);
      GapInOrder(s, to, comma);
      GapInOrder(s, comma + 1, rest.from);
    }
  }

  lemma GapInOrder(s: Bytes, i: nat, k: nat)
    requires Gap(s, i, k)
    ensures i <= k <= |s|
  {
  }

  lemma FirstOfRest(s: Bytes, i: nat, j: nat, rest: Forms)
    requires rest.Element? && ItemsSpan(s, i, j, rest)
    ensures rest.from < |s| && !IsAsciiWhitespace(s[rest.from]) && s[rest.from] != ']' && Gap(s, i, rest.from)
  {
    FormFirst(s, rest.from, rest.to, rest.value);
  }

  lemma {:induction false} DictionaryScans(s: Bytes, i: nat, j: nat, entries: Entries)
    requires i + 2 <= j && Byte(s, i, '{') && Byte(s, j - 1, '}') && EntriesSpan(s, i + 1, j - 1, entries)
    requires CleanEntries(entries) && NoRepeats(EntryNames(entries))
    ensures ScanValue(s, i) == Good((), j)
    decreases entries, 2
  {
    hide ScanMembers, ScanArray, ScanObject, ScanString, EntriesSpan, SkipWhitespace, Separator;
    hide CleanEntries, NoRepeats;
    OpensObject(s, i);
    SkipIs(s, i, i);
    if entries.NoEntries? {
      NoElements(s, i + 1, j - 1);
      SkipIs(s, i + 1, j - 1);
    } else {
      FirstOfEntries(s, i + 1, j - 1, entries);
      SkipIs(s, i + 1, entries.start);
      EntriesMove(s, i + 1, entries.start, j - 1, entries);
      SeparatorCloses(s, j - 1, '}');
      EntriesScan(s, entries.start, j - 1, entries, {});
    }
  }

  lemma FirstOfEntries(s: Bytes, i: nat, j: nat, entries: Entries)
    requires entries.Entry? && EntriesSpan(s, i, j, entries)
    ensures Byte(s, entries.start, '\"') && Gap(s, i, entries.start)
  {
  }

  lemma EntryScans(s: Bytes, i: nat, entry: Entries, seen: set<string>)
    requires entry.Entry? && Gap(s, i, entry.start)
    requires EntrySpans(s, entry.start, entry.name, entry.colon, entry.from, entry.value, entry.to)
    requires !HasSurrogate(entry.name) && Clean(entry.value) && Decode(entry.name) !in seen
    ensures ScanMember(s, i, seen) == Good(Decode(entry.name), entry.to)
    decreases entry, 0
  {
    hide ScanValue, ScanStringRest, Spans, SkipWhitespace, HasSurrogate, Decode, PiecesAt;
    SkipIs(s, i, entry.start);
    SkipIs(s, entry.start, entry.start);
    ScanQuoted(s, entry.start, entry.name);
    SkipIs(s, entry.start + QuotedLength(entry.name), entry.colon);
    ValueScans(s, entry.colon + 1, entry.from, entry.to, entry.value);
  }

  lemma {:induction false} EntriesScan(s: Bytes, i: nat, j: nat, entries: Entries, seen: set<string>)
    requires entries.Entry? && EntriesSpan(s, i, j, entries) && CleanEntries(entries)
    requires NoRepeats(EntryNames(entries)) && Disjoint(EntryNames(entries), seen)
    requires j <= |s| && !Separator(s, j, '}').More?
    ensures i <= j
    ensures ScanMembers(s, i, seen) == Ending(Separator(s, j, '}'), TrailingCommaInObject, MissingObjectTerminator)
    decreases entries, 1
  {
    hide ScanMembers, ScanMember, Spans, EntrySpans, Clean, Separator, Gap, NoRepeats, Disjoint, HasSurrogate, Decode;
    var to, comma, rest := entries.to, entries.comma, entries.rest;
    DistinctCons(Decode(entries.name), EntryNames(rest), seen);
    EntryScans(s, i, entries, seen);
    EntryInOrder(s, i, entries);
    ScanMembersStep(s, i, seen);
    if rest.NoEntries? {
      GapInOrder(s, to, j);
      SeparatorAfterGap(s, to, j, '}');
    } else {
      FirstOfEntries(s, comma + 1, j, rest);
      SeparatorIs(s, to, comma, rest.start, '}');
      GapInOrder(s, to, comma);
      GapInOrder(s, comma + 1, rest.start);
      EntriesMove(s, comma + 1, rest.start, j, rest);
      EntriesScan(s, rest.start, j, rest, seen + {Decode(entries.name)});
    }
  }

  lemma EntryInOrder(s: Bytes, i: nat, entry: Entries)
    requires entry.Entry? && Gap(s, i, entry.start)
    requires EntrySpans(s, entry.start, entry.name, entry.colon, entry.from, entry.value, entry.to)
    ensures i <= entry.start < entry.to <= |s|
  {
    hide Spans;
    FormFirst(s, entry.from, entry.to, entry.value);
  }

  // ---- The verdict on every input ----

  /** The detector accepts exactly the clean forms, with nothing but gaps around them. */
  lemma AcceptedExactly(s: Bytes)
    ensures Verdict(s).Ok? <==> Acceptable(s)
  {
    hide ScanValue, SkipWhitespace, Spans, Clean, Gap;
    if Verdict(s).Ok? {
      var from, form := ValueRead(s, 0);
      Skipped(s, ScanValue(s, 0).next);
    }
    if from, to, form :| Gap(s, 0, from) && Spans(s, from, to, form) && Clean(form) && Gap(s, to, |s|) {
      ValueScans(s, 0, from, to, form);
      SkipIs(s, to, |s|);
    }
  }

  /** Anything after a form is refused. */
  lemma ContentAfterForm(s: Bytes, from: nat, to: nat, form: Form, end: nat)
    requires Gap(s, 0, from) && Spans(s, from, to, form) && Clean(form)
    requires Gap(s, to, end) && end < |s| && !IsAsciiWhitespace(s[end])
    ensures Verdict(s) == Err(TrailingContent)
  {
    hide ScanValue, Spans, Clean;
    ValueScans(s, 0, from, to, form);
    SkipIs(s, to, end);
  }

  /** An array that goes on wrongly after clean items: a comma before the bracket, or neither of them. */
  lemma BrokenArray(s: Bytes, from: nat, items: Forms, j: nat, k: nat)
    requires Gap(s, 0, from) && Byte(s, from, '[')
    requires items.Element? && ItemsSpan(s, from + 1, j, items) && CleanItems(items) && j <= |s|
    ensures Byte(s, j, ',') && Gap(s, j + 1, k) && Byte(s, k, ']') ==> Verdict(s) == Err(TrailingCommaInArray)
    ensures j == |s| || (!IsAsciiWhitespace(s[j]) && s[j] != ',' && s[j] != ']')
            ==> Verdict(s) == Err(MissingArrayTerminator)
  {
    hide ScanItems, ScanObject, ScanString, Spans, SkipWhitespace, CleanItems;
    FirstOfRest(s, from + 1, j, items);
    ScanAfterGap(s, 0, from);
    SkipIs(s, from, from);
    OpensArray(s, from);
    SkipIs(s, from + 1, items.from);
    ItemsMove(s, from + 1, items.from, j, items);
    if Byte(s, j, ',') && Gap(s, j + 1, k) && Byte(s, k, ']') {
      SeparatorIs(s, j, j, k, ']');
      ItemsScan(s, items.from, j, items);
    } else if j == |s| || (!IsAsciiWhitespace(s[j]) && s[j] != ',' && s[j] != ']') {
      SkipIs(s, j, j);
      ItemsScan(s, items.from, j, items);
    }
  }

  lemma BrokenObject(s: Bytes, from: nat, entries: Entries, j: nat, k: nat)
    requires Gap(s, 0, from) && Byte(s, from, '{')
    requires entries.Entry? && EntriesSpan(s, from + 1, j, entries) && CleanEntries(entries) && j <= |s|
    requires NoRepeats(EntryNames(entries))
    ensures Byte(s, j, ',') && Gap(s, j + 1, k) && Byte(s, k, '}') ==> Verdict(s) == Err(TrailingCommaInObject)
    ensures j == |s| || (!IsAsciiWhitespace(s[j]) && s[j] != ',' && s[j] != '}')
            ==> Verdict(s) == Err(MissingObjectTerminator)
  {
    hide ScanMembers, ScanArray, ScanString, EntrySpans, SkipWhitespace, CleanEntries, NoRepeats, EntryNames;
    FirstOfEntries(s, from + 1, j, entries);
    ScanAfterGap(s, 0, from);
    SkipIs(s, from, from);
    OpensObject(s, from);
    SkipIs(s, from + 1, entries.start);
    EntriesMove(s, from + 1, entries.start, j, entries);
    if Byte(s, j, ',') && Gap(s, j + 1, k) && Byte(s, k, '}') {
      SeparatorIs(s, j, j, k, '}');
      EntriesScan(s, entries.start, j, entries, {});
    } else if j == |s| || (!IsAsciiWhitespace(s[j]) && s[j] != ',' && s[j] != '}') {
      SkipIs(s, j, j);
      EntriesScan(s, entries.start, j, entries, {});
    }
  }
}
