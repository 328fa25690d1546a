/**
 * What the flat scanner reports on a well-formed text, and when it agrees with the
 * recursive-descent detector.
 *
 * The scanner takes two kinds of strings for the names of an object: its names, read without
 * decoding their escapes, and every string that follows a comma of an array in one of its
 * values. `ScannerReports` says that it reports the first of these that comes twice, and
 * `ScannerSilent` that it reports nothing exactly when none does.
 */
module ScannerTheorems {
  import opened Wrappers
  import opened Ordering
  import opened JsonGrammar
  import opened KeyDetector
  import opened DetectorTheorems
  import opened Spelling
  import opened FlatScanner

  // ---- What the scanner takes for names ----

  /** Where a value stands: in no object, or in an object before or after a comma of an array. */
  datatype Place = Outside | AfterColon | AfterComma

  function Later(place: Place): Place {
    if place == Outside then Outside else AfterComma
  }

  /** The strings of a value that are taken for names of the object around it. */
  function Strays(v: Value, place: Place): seq<string>
    decreases v, 0
  {
    match v
    case String(ps) => if place == AfterComma then [FlatDecode(ps)] else []
    case Array(_, items) => StrayItems(items, place)
    case _ => []
  }

  function StrayItems(items: Items, place: Place): seq<string>
    decreases items, 0
  {
    if items.NoItems? then [] else Strays(items.value, place) + StrayItems(items.rest, Later(place))
  }

  /** All that is taken for a name of an object: each name, then the strays of its value. */
  function Noted(members: Members): seq<string> {
    if members.NoMembers? then []
    else [FlatDecode(members.name)] + (Strays(members.value, AfterColon) + Noted(members.rest))
  }

  /** In no object, at any depth, is anything noted twice. */
  predicate Fine(v: Value) {
    match v
    case Array(_, items) => FineItems(items)
    case Object(_, members) => NoRepeats(Noted(members)) && FineMembers(members)
    case _ => true
  }

  predicate FineItems(items: Items) {
    items.Item? ==> Fine(items.value) && FineItems(items.rest)
  }

  predicate FineMembers(members: Members) {
    members.Member? ==> Fine(members.value) && FineMembers(members.rest)
  }

  // ---- The first one that comes twice, in document order ----

  function Set(names: seq<string>): set<string> {
    set name | name in names
  }

  /** The first name noted twice in a value, where `seen` has been noted in the object around it. */
  function Fault(v: Value, place: Place, seen: set<string>): Option<string>
    decreases v, 0
  {
    match v
    case String(ps) =>
      if place == AfterComma && FlatDecode(ps) in seen then Some(FlatDecode(ps)) else None
    case Array(_, items) => FaultInItems(items, place, seen)
    case Object(_, members) => FaultInMembers(members, {})
    case _ => None
  }

  function FaultInItems(items: Items, place: Place, seen: set<string>): Option<string>
    decreases items, 0
  {
    if items.NoItems? then None
    else
      var first := Fault(items.value, place, seen);
      if first.Some? then first
      else FaultInItems(items.rest, Later(place), seen + Set(Strays(items.value, place)))
  }

  function FaultInMembers(members: Members, seen: set<string>): Option<string>
    decreases members, 0
  {
    if members.NoMembers? then None
    else
      var name := FlatDecode(members.name);
      if name in seen then Some(name)
      else
        var first := Fault(members.value, AfterColon, seen + {name});
        if first.Some? then first
        else FaultInMembers(members.rest, seen + {name} + Set(Strays(members.value, AfterColon)))
  }

  /** None of the names repeats, and none has been seen. */
  predicate Fresh(names: seq<string>, seen: set<string>) {
    NoRepeats(names) && Disjoint(names, seen)
  }

  lemma {:induction false} FreshAppend(a: seq<string>, b: seq<string>, seen: set<string>)
    ensures Fresh(a + b, seen) <==> Fresh(a, seen) && Fresh(b, seen + Set(a))
    decreases |a|
  {
    if a == [] {
      assert a + b == b && seen + Set(a) == seen;
    } else {
      var name, rest := a[0], a[1..];
      assert a == [name] + rest && a + b == [name] + (rest + b);
      DistinctCons(name, rest, seen);
      DistinctCons(name, rest + b, seen);
      FreshAppend(rest, b, seen + {name});
      assert seen + {name} + Set(rest) == seen + Set(a);
    }
  }

  /** There is a fault exactly when something is noted twice. */
  lemma {:induction false} FaultMeans(v: Value, place: Place, seen: set<string>)
    ensures Fault(v, place, seen).None? <==> Fresh(Strays(v, place), seen) && Fine(v)
    decreases v, 0
  {
    NothingFresh(seen);
    match v
    case String(ps) =>
      NothingFresh(seen + {FlatDecode(ps)});
      FreshCons(FlatDecode(ps), [], seen);
      assert [FlatDecode(ps)] + [] == [FlatDecode(ps)];
    case Array(_, items) => FaultInItemsMeans(items, place, seen);
    case Object(_, members) => FaultInMembersMeans(members, {});
    case _ =>
  }

  lemma {:induction false} FaultInItemsMeans(items: Items, place: Place, seen: set<string>)
    ensures FaultInItems(items, place, seen).None? <==> Fresh(StrayItems(items, place), seen) && FineItems(items)
    decreases items, 0
  {
    hide Fresh, Strays, Fault, Fine, Set;
    if items.Item? {
      var first := Strays(items.value, place);
      FaultMeans(items.value, place, seen);
      FaultInItemsMeans(items.rest, Later(place), seen + Set(first));
      FreshAppend(first, StrayItems(items.rest, Later(place)), seen);
    } else {
      NothingFresh(seen);
    }
  }

  lemma NothingFresh(seen: set<string>)
    ensures Fresh([], seen)
  {
  }

  lemma {:induction false} FaultInMembersMeans(members: Members, seen: set<string>)
    ensures FaultInMembers(members, seen).None? <==> Fresh(Noted(members), seen) && FineMembers(members)
    decreases members, 0
  {
    hide Fresh, Strays, Fault, Fine, Set, FlatDecode;
    if members.Member? {
      var name, strays := FlatDecode(members.name), Strays(members.value, AfterColon);
      FaultMeans(members.value, AfterColon, seen + {name});
      FaultInMembersMeans(members.rest, seen + {name} + Set(strays));
      FreshAppend(strays, Noted(members.rest), seen + {name});
      FreshCons(name, strays + Noted(members.rest), seen);
    } else {
      NothingFresh(seen);
    }
  }

  lemma FreshCons(name: string, names: seq<string>, seen: set<string>)
    ensures Fresh([name] + names, seen) <==> name !in seen && Fresh(names, seen + {name})
  {
    DistinctCons(name, names, seen);
  }

  // ---- The frames of the scanner keep exactly that account ----

  predicate Fits(place: Place, stack: seq<Frame>) {
    match place
    case Outside => stack == []
    case AfterColon => stack != [] && !stack[|stack| - 1].expecting
    case AfterComma => stack != [] && stack[|stack| - 1].expecting
  }

  function Seen(stack: seq<Frame>): set<string> {
    if stack == [] then {} else stack[|stack| - 1].seen
  }

  /** The same frames, with these names noted in the innermost one. */
  predicate Adds(before: seq<Frame>, after: seq<Frame>, names: seq<string>) {
    && |before| == |after|
    && (before != [] ==> before[..|before| - 1] == after[..|before| - 1]
                         && Seen(after) == Seen(before) + Set(names))
  }

  /** The scanner reports this fault, or goes on with these names noted. */
  predicate Accounts(step: Step, stack: seq<Frame>, fault: Option<string>, names: seq<string>) {
    match fault
    case Some(key) => step == Repeated(key)
    case None => step.Go? && Adds(stack, step.stack, names)
  }

  lemma AddsNothing(stack: seq<Frame>)
    ensures Adds(stack, stack, [])
  {
    assert Set([]) == {};
  }

  lemma AddsBoth(a: seq<Frame>, b: seq<Frame>, c: seq<Frame>, names: seq<string>, more: seq<string>)
    requires Adds(a, b, names) && Adds(b, c, more)
    ensures Adds(a, c, names + more)
  {
    assert Set(names + more) == Set(names) + Set(more);
  }

  /** A comma lets the innermost object expect a name, and notes none. */
  lemma CommaExpects(stack: seq<Frame>, place: Place)
    requires stack == [] <==> place == Outside
    ensures Fits(Later(place), SetExpecting(stack, true))
    ensures Seen(SetExpecting(stack, true)) == Seen(stack)
    ensures forall after, names :: Adds(SetExpecting(stack, true), after, names) ==> Adds(stack, after, names)
  {
  }

  lemma NoteAccounts(stack: seq<Frame>, text: string, place: Place)
    requires Fits(place, stack)
    ensures Accounts(Note(stack, text), stack,
                     if place == AfterComma && text in Seen(stack) then Some(text) else None,
                     if place == AfterComma then [text] else [])
  {
    AddsNothing(stack);
    assert Set([text]) == {text};
  }

  lemma {:induction false} FramesAccount(v: Value, stack: seq<Frame>, place: Place)
    requires Fits(place, stack)
    ensures Accounts(FlatValue(v, stack), stack, Fault(v, place, Seen(stack)), Strays(v, place))
    decreases v, 0
  {
    hide FlatDecode, Note, Adds, FlatItems, FlatMembers, FaultInItems, FaultInMembers, StrayItems;
    match v
    case String(ps) => NoteAccounts(stack, FlatDecode(ps), place);
    case Array(_, items) => FramesAccountItems(items, stack, place);
    case Object(_, members) =>
      FramesAccountMembers(members, stack, {});
      AddsNothing(stack);
      var step := FlatMembers(members, stack + [Frame(true, {})]);
      assert step.Go? && |step.stack| == |stack| + 1 ==> Pop(step.stack) == step.stack[..|stack|];
    case _ => AddsNothing(stack);
  }

  lemma {:induction false} FramesAccountItems(items: Items, stack: seq<Frame>, place: Place)
    requires Fits(place, stack)
    ensures Accounts(FlatItems(items, stack), stack, FaultInItems(items, place, Seen(stack)), StrayItems(items, place))
    decreases items, 0
  {
    hide FlatValue, Fault, Strays, Adds, Set, SetExpecting;
    AddsNothing(stack);
    if items.Item? {
      var step, first := FlatValue(items.value, stack), Strays(items.value, place);
      FramesAccount(items.value, stack, place);
      if step.Go? {
        var comma := SetExpecting(step.stack, true);
        AddsSeen(stack, step.stack, items.value, place);
        CommaExpects(step.stack, place);
        FramesAccountItems(items.rest, comma, Later(place));
        var last, rest := FlatItems(items.rest, comma), StrayItems(items.rest, Later(place));
        if items.rest.NoItems? {
          assert first + rest == first;
        } else if last.Go? {
          assert Adds(step.stack, last.stack, rest);
          AddsBoth(stack, step.stack, last.stack, first, rest);
        }
      }
    }
  }

  lemma AddsSeen(before: seq<Frame>, after: seq<Frame>, v: Value, place: Place)
    requires Adds(before, after, Strays(v, place)) && Fits(place, before)
    ensures after == [] <==> place == Outside
    ensures Seen(after) == Seen(before) + Set(Strays(v, place))
  {
    if place == Outside {
      NoStraysOutside(v);
    }
  }

  /** A member of the innermost object: its name is noted, then its value is scanned. */
  lemma FlatMemberOpens(name: seq<Piece>, v: Value, outer: seq<Frame>, seen: set<string>)
    ensures var text := FlatDecode(name);
            FlatMember(name, v, outer + [Frame(true, seen)]) ==
              if text in seen then Repeated(text) else FlatValue(v, outer + [Frame(false, seen + {text})])
  {
    hide FlatValue;
    var text := FlatDecode(name);
    assert (outer + [Frame(true, seen)])[|outer| := Frame(true, seen + {text})]
        == outer + [Frame(true, seen + {text})];
    assert SetExpecting(outer + [Frame(true, seen + {text})], false) == outer + [Frame(false, seen + {text})];
  }

  /** The comma after a member: the next string is a name again. */
  lemma SetExpectingLast(outer: seq<Frame>, open: seq<Frame>, stack: seq<Frame>, names: seq<string>)
    requires |open| == |outer| + 1 && open[..|outer|] == outer && Adds(open, stack, names)
    ensures |stack| == |outer| + 1 && stack[..|outer|] == outer
    ensures SetExpecting(stack, true) == outer + [Frame(true, Seen(open) + Set(names))]
  {
  }

  lemma {:induction false} FramesAccountMembers(members: Members, outer: seq<Frame>, seen: set<string>)
    ensures var step := FlatMembers(members, outer + [Frame(true, seen)]);
            match FaultInMembers(members, seen)
            case Some(key) => step == Repeated(key)
            case None => step.Go? && |step.stack| == |outer| + 1 && step.stack[..|outer|] == outer
    decreases members, 0
  {
    hide FlatMember, FlatValue, SetExpecting, FlatDecode, Fault, Strays, Adds, Set;
    if members.Member? {
      var name, strays := FlatDecode(members.name), Strays(members.value, AfterColon);
      FlatMemberOpens(members.name, members.value, outer, seen);
      if name !in seen {
        var open := outer + [Frame(false, seen + {name})];
        assert open[..|outer|] == outer && Seen(open) == seen + {name};
        FramesAccount(members.value, open, AfterColon);
        var step := FlatValue(members.value, open);
        if step.Go? {
          SetExpectingLast(outer, open, step.stack, strays);
          FramesAccountMembers(members.rest, outer, seen + {name} + Set(strays));
        }
      }
    }
  }

  lemma {:induction false} NoStraysOutside(v: Value)
    ensures Strays(v, Outside) == []
    decreases v, 0
  {
    if v.Array? {
      NoStrayItemsOutside(v.items);
    }
  }

  lemma {:induction false} NoStrayItemsOutside(items: Items)
    ensures StrayItems(items, Outside) == []
    decreases items, 0
  {
    if items.Item? {
      NoStraysOutside(items.value);
      NoStrayItemsOutside(items.rest);
    }
  }

  /** On every well-formed text the scanner reports the first name noted twice in an object. */
  lemma ScannerReports(s: Bytes, t: Text)
    requires TextAt(s, t)
    ensures ScanFlat(s, 0, []) == Fault(t.value, Outside, {})
  {
    hide ScanFlat, FlatValue, Fault;
    FlatOnText(s, t);
    FramesAccount(t.value, [], Outside);
  }

  /** On every well-formed text it reports nothing exactly when nothing is noted twice in any object. */
  lemma ScannerSilent(s: Bytes, t: Text)
    requires TextAt(s, t)
    ensures ScanFlat(s, 0, []) == None <==> Fine(t.value)
  {
    ScannerReports(s, t);
    FaultMeans(t.value, Outside, {});
    NoStraysOutside(t.value);
  }

  // ---- Agreement with the recursive-descent detector ----

  function Duplicate(key: Option<string>): Option<DetectorError> {
    if key.Some? then Some(DuplicateField(key.value)) else None
  }

  /** Both accept, or both report the same name. */
  predicate Agree(s: Bytes) {
    match Verdict(s)
    case Ok(_) => ScanFlat(s, 0, []) == None
    case Err(e) => e.DuplicateField? && ScanFlat(s, 0, []) == Some(e.key)
  }

  /**
   * When the two detectors agree, and when each alone is right, on every well-formed text. They accept
   * together exactly when the names, decoded, and the noted strings, undecoded, repeat together; a
   * duplicate is missed exactly when some object repeats a decoded name and none repeats a noted string;
   * and they report the same name exactly when it is the first of both kinds.
   */
  lemma AgreementExactly(s: Bytes, t: Text)
    requires TextAt(s, t)
    ensures var names, noted := NoSurrogates(t.value) && NoDuplicates(t.value), Fine(t.value);
            && ((Verdict(s).Ok? <==> ScanFlat(s, 0, []) == None) <==> (names <==> noted))
            && (Verdict(s).Err? && ScanFlat(s, 0, []) == None <==> !names && noted)
            && (Verdict(s).Ok? && ScanFlat(s, 0, []) != None <==> names && !noted)
    ensures Agree(s) <==> Check(t.value) == Duplicate(Fault(t.value, Outside, {}))
  {
    hide Verdict, ScanFlat, Check, Fault, Fine;
    VerdictIsNoDuplicates(s, t);
    VerdictOnText(s, t);
    ScannerSilent(s, t);
    ScannerReports(s, t);
  }

  /** A name written without escapes other than those of the quote, the backslash and the slash. */
  predicate PlainName(ps: seq<Piece>) {
    forall i :: 0 <= i < |ps| ==> ps[i].Raw? || (ps[i].Short? && ps[i].c in "\"\\/")
  }

  predicate PlainNames(v: Value) {
    match v
    case Array(_, items) => PlainNamesInItems(items)
    case Object(_, members) => PlainNamesInMembers(members)
    case _ => true
  }

  predicate PlainNamesInItems(items: Items) {
    items.Item? ==> PlainNames(items.value) && PlainNamesInItems(items.rest)
  }

  predicate PlainNamesInMembers(members: Members) {
    members.Member? ==>
      PlainName(members.name) && PlainNames(members.value) && PlainNamesInMembers(members.rest)
  }

  lemma {:induction false} PlainDecode(ps: seq<Piece>)
    requires PiecesOk(ps) && PlainName(ps)
    ensures !HasSurrogate(ps) && FlatDecode(ps) == Decode(ps)
    decreases |ps|
  {
    if ps != [] {
      PlainDecode(ps[1..]);
      SurrogateCons(ps);
    }
  }

  /** Plain names are all noted as what they are. */
  lemma {:induction false} PlainNamesNoted(members: Members)
    requires MembersOk(members) && PlainNamesInMembers(members)
    ensures forall name :: name in Names(members) ==> name in Noted(members)
    ensures NoRepeats(Noted(members)) ==> NoRepeats(Names(members))
    decreases members
  {
    hide FlatDecode, Decode, Strays, PlainName, PiecesOk;
    if members.Member? {
      var name, strays := Decode(members.name), Strays(members.value, AfterColon);
      PlainDecode(members.name);
      PlainNamesNoted(members.rest);
      assert Names(members) == [name] + Names(members.rest);
      var noted := strays + Noted(members.rest);
      assert Noted(members) == [name] + noted;
      FreshCons(name, noted, {});
      FreshAppend(strays, Noted(members.rest), {} + {name});
      DistinctCons(name, Names(members.rest), {});
      if NoRepeats(Noted(members)) {
        forall i | 0 <= i < |Names(members.rest)| ensures Names(members.rest)[i] !in {} + {name} {
          assert Names(members.rest)[i] in Noted(members.rest);
        }
      }
    }
  }

  lemma {:induction false} PlainFine(v: Value)
    requires ValueOk(v) && PlainNames(v) && Fine(v)
    ensures NoDuplicates(v)
    decreases v, 1
  {
    match v
    case Array(_, items) => PlainFineItems(items);
    case Object(_, members) =>
      PlainNamesNoted(members);
      PlainFineMembers(members);
    case _ =>
  }

  lemma {:induction false} PlainFineItems(items: Items)
    requires ItemsOk(items) && PlainNamesInItems(items) && FineItems(items)
    ensures NoDuplicateItems(items)
    decreases items, 0
  {
    if items.Item? {
      PlainFine(items.value);
      PlainFineItems(items.rest);
    }
  }

  lemma {:induction false} PlainFineMembers(members: Members)
    requires MembersOk(members) && PlainNamesInMembers(members) && FineMembers(members)
    ensures NoDuplicateMembers(members)
    decreases members, 0
  {
    if members.Member? {
      PlainFine(members.value);
      PlainFineMembers(members.rest);
    }
  }

  /**
   * With plain names and no surrogate escapes the scanner never misses a duplicate, wherever
   * strings stand: whenever the detector refuses a text, the scanner reports a name.
   */
  lemma ScannerMissesNothing(s: Bytes, t: Text)
    requires TextAt(s, t) && NoSurrogates(t.value) && PlainNames(t.value)
    requires Verdict(s).Err?
    ensures ScanFlat(s, 0, []).Some?
  {
    hide Verdict, ScanFlat, Fine, NoDuplicates;
    AgreementExactly(s, t);
    if Fine(t.value) {
      PlainFine(t.value);
    }
  }

  /**
   * No string stands, inside an object, in an array that belongs to a member and after a comma
   * of that array: there are no strays.
   */
  predicate Quiet(v: Value, place: Place) {
    match v
    case String(_) => place != AfterComma
    case Array(_, items) => QuietItems(items, place)
    case Object(_, members) => QuietMembers(members)
    case _ => true
  }

  predicate QuietItems(items: Items, place: Place) {
    items.Item? ==> Quiet(items.value, place) && QuietItems(items.rest, Later(place))
  }

  predicate QuietMembers(members: Members) {
    members.Member? ==> Quiet(members.value, AfterColon) && QuietMembers(members.rest)
  }

  predicate ArrayFree(v: Value) {
    !v.Array? && (v.Object? ==> ArrayFreeMembers(v.members))
  }

  predicate ArrayFreeMembers(members: Members) {
    members.Member? ==> ArrayFree(members.value) && ArrayFreeMembers(members.rest)
  }

  /** Without arrays there are no such strings. */
  lemma {:induction false} ArrayFreeIsQuiet(v: Value, place: Place)
    requires ArrayFree(v) && place != AfterComma
    ensures Quiet(v, place)
    decreases v, 1
  {
    if v.Object? {
      ArrayFreeMembersQuiet(v.members);
    }
  }

  lemma {:induction false} ArrayFreeMembersQuiet(members: Members)
    requires ArrayFreeMembers(members)
    ensures QuietMembers(members)
    decreases members, 0
  {
    if members.Member? {
      ArrayFreeIsQuiet(members.value, AfterColon);
      ArrayFreeMembersQuiet(members.rest);
    }
  }

  lemma {:induction false} QuietCheck(v: Value, place: Place, seen: set<string>)
    requires ValueOk(v) && NoSurrogates(v) && PlainNames(v) && Quiet(v, place)
    ensures Strays(v, place) == [] && Check(v) == Duplicate(Fault(v, place, seen))
    decreases v, 1
  {
    match v
    case Array(_, items) => QuietCheckItems(items, place, seen);
    case Object(_, members) => QuietCheckMembers(members, {});
    case _ =>
  }

  lemma {:induction false} QuietCheckItems(items: Items, place: Place, seen: set<string>)
    requires ItemsOk(items) && NoSurrogateItems(items) && PlainNamesInItems(items) && QuietItems(items, place)
    ensures StrayItems(items, place) == [] && CheckItems(items) == Duplicate(FaultInItems(items, place, seen))
    decreases items, 0
  {
    hide Check, Fault, Strays;
    if items.Item? {
      QuietCheck(items.value, place, seen);
      assert seen + Set([]) == seen;
      QuietCheckItems(items.rest, Later(place), seen);
    }
  }

  lemma {:induction false} QuietCheckMembers(members: Members, seen: set<string>)
    requires MembersOk(members) && NoSurrogateMembers(members) && PlainNamesInMembers(members) && QuietMembers(members)
    ensures CheckMembers(members, seen) == Duplicate(FaultInMembers(members, seen))
    decreases members, 0
  {
    hide Check, Fault, Strays, FlatDecode, Decode;
    if members.Member? {
      var name := Decode(members.name);
      PlainDecode(members.name);
      QuietCheck(members.value, AfterColon, seen + {name});
      assert seen + {name} + Set([]) == seen + {name};
      QuietCheckMembers(members.rest, seen + {name});
    }
  }

  /**
   * The two detectors agree, down to the name they report, on every well-formed text without
   * surrogate escapes whose names are plain and that has no strays.
   */
  lemma ScannerAgrees(s: Bytes, t: Text)
    requires TextAt(s, t) && NoSurrogates(t.value) && PlainNames(t.value) && Quiet(t.value, Outside)
    ensures Agree(s)
  {
    hide Agree, Check, Fault, PlainNames, Quiet, NoSurrogates;
    AgreementExactly(s, t);
    QuietCheck(t.value, Outside, {});
  }

  // ---- Where they disagree ----

  const NAME_A := [Raw('a')]
  const NAME_B := [Raw('b')]
  const ESCAPED_A := [Unicode('0', '0', '6', '1')]
  const ESCAPED_NAME := "{\"a\":0,\"\\u0061\":0}"
  const STRAY_STRING := "{\"a\":[\"b\",\"a\"]}"
  const STRAY_ITEMS := Item(String(NAME_B), 0, 0, Item(String(NAME_A), 0, 0, NoItems))
  const STRAY_TREE := Text(0, Object(0, Member(NAME_A, 0, 0, Array(0, STRAY_ITEMS), 0, 0, NoMembers)), 0)

  lemma LetterAt(s: Bytes, i: nat, c: char)
    requires i + 2 < |s| && s[i] == s[i + 2] == '\"' && s[i + 1] == c
    ensures QuotedLength([Raw(c)]) == 3 && QuotedAt(s, i, [Raw(c)])
  {
    var ps := [Raw(c)];
    assert ps[1..] == [] && PiecesLength(ps) == 1 && PiecesAt(s, i + 1, ps);
  }

  lemma EscapedAAt(s: Bytes, i: nat)
    requires i + 7 < |s| && s[i] == s[i + 7] == '\"' && s[i + 1] == '\\' && s[i + 2] == 'u'
    requires s[i + 3] == s[i + 4] == '0' && s[i + 5] == '6' && s[i + 6] == '1'
    ensures QuotedLength(ESCAPED_A) == 8 && QuotedAt(s, i, ESCAPED_A)
  {
    assert ESCAPED_A[1..] == [];
  }

  lemma EscapedNameWritten()
    ensures PiecesOk(NAME_A) && PiecesOk(ESCAPED_A)
    ensures TwoMembersWritten(ESCAPED_NAME, NAME_A, ESCAPED_A)
    ensures Decode(NAME_A) == Decode(ESCAPED_A) && FlatDecode(NAME_A) == "a" && FlatDecode(ESCAPED_A) == "u0061"
  {
    hide QuotedAt, QuotedLength;
    LetterAt(ESCAPED_NAME, 1, 'a');
    EscapedAAt(ESCAPED_NAME, 7);
    assert NAME_A[1..] == [] && ESCAPED_A[1..] == [];
  }

  lemma TwoMembersFine(first: seq<Piece>, second: seq<Piece>)
    requires FlatDecode(first) != FlatDecode(second)
    ensures Fine(TwoMembers(first, second).value)
  {
    hide FlatDecode;
    var both := TwoMembers(first, second).value.members;
    assert Noted(both.rest) == [FlatDecode(second)];
    assert Noted(both) == [FlatDecode(first), FlatDecode(second)];
    assert Fine(both.value) && Fine(both.rest.value);
    assert FineMembers(both.rest.rest);
    assert FineMembers(both.rest);
    assert FineMembers(both);
  }

  lemma EscapedNameRepeats()
    ensures var v := TwoMembers(NAME_A, ESCAPED_A).value; ValueOk(v) && !NoDuplicates(v)
  {
    EscapedNameWritten();
    TwoMembersOk(NAME_A, ESCAPED_A);
    var names := Names(TwoMembers(NAME_A, ESCAPED_A).value.members);
    assert names[0] == names[1];
  }

  /** Escapes are not decoded: a name repeated with an escape is missed. */
  lemma EscapedNameMissed()
    ensures TextAt(ESCAPED_NAME, TwoMembers(NAME_A, ESCAPED_A))
    ensures Verdict(ESCAPED_NAME).Err? && ScanFlat(ESCAPED_NAME, 0, []) == None
  {
    hide *;
    EscapedNameWritten();
    TwoMembersAt(ESCAPED_NAME, NAME_A, ESCAPED_A);
    EscapedNameRepeats();
    TwoMembersFine(NAME_A, ESCAPED_A);
    AgreementExactly(ESCAPED_NAME, TwoMembers(NAME_A, ESCAPED_A));
  }

  lemma StrayItemsWritten()
    ensures ItemsAt(STRAY_STRING, 6, STRAY_ITEMS) && ItemsLength(STRAY_ITEMS) == 7
  {
    hide QuotedAt, QuotedLength;
    LetterAt(STRAY_STRING, 6, 'b');
    LetterAt(STRAY_STRING, 10, 'a');
    assert ItemsAt(STRAY_STRING, 10, STRAY_ITEMS.rest) && ItemsLength(STRAY_ITEMS.rest) == 3;
  }

  lemma StrayStringWritten()
    ensures TextAt(STRAY_STRING, STRAY_TREE)
  {
    hide QuotedAt, QuotedLength, ItemsAt, ItemsLength, ItemsOk, ValueOk;
    StrayItemsWritten();
    StrayTreeSound();
    LetterAt(STRAY_STRING, 1, 'a');
    assert ValueAt(STRAY_STRING, 5, Array(0, STRAY_ITEMS));
    assert MemberAt(STRAY_STRING, 1, NAME_A, 0, 0, Array(0, STRAY_ITEMS));
  }

  lemma StrayFault()
    ensures Fault(STRAY_TREE.value, Outside, {}) == Some("a")
  {
    hide FlatDecode;
    LetterReads('a');
    LetterReads('b');
    var seen := {} + {"a"};
    assert FaultInItems(STRAY_ITEMS.rest, AfterComma, seen + Set([])) == Some("a");
    assert FaultInItems(STRAY_ITEMS, AfterColon, seen) == Some("a");
    assert Fault(Array(0, STRAY_ITEMS), AfterColon, seen) == Some("a");
  }

  lemma LetterReads(c: char)
    ensures FlatDecode([Raw(c)]) == [c]
  {
    assert [Raw(c)][1..] == [];
  }

  /** A string in an array of a member, after a comma, is taken for a name. */
  lemma StrayStringReported()
    ensures TextAt(STRAY_STRING, STRAY_TREE)
    ensures Verdict(STRAY_STRING).Ok? && ScanFlat(STRAY_STRING, 0, []) == Some("a")
  {
    hide *;
    StrayStringWritten();
    StrayFault();
    ScannerReports(STRAY_STRING, STRAY_TREE);
    VerdictIsNoDuplicates(STRAY_STRING, STRAY_TREE);
    StrayTreeSound();
  }

  lemma StrayTreeSound()
    ensures ValueOk(STRAY_TREE.value) && NoSurrogates(STRAY_TREE.value) && NoDuplicates(STRAY_TREE.value)
  {
    assert ItemsOk(STRAY_ITEMS.rest) && ItemsOk(STRAY_ITEMS);
    assert NoDuplicateItems(STRAY_ITEMS.rest) && NoSurrogateItems(STRAY_ITEMS.rest);
    assert NoDuplicateItems(STRAY_ITEMS) && NoSurrogateItems(STRAY_ITEMS);
    assert |Names(STRAY_TREE.value.members)| == 1;
  }
}
