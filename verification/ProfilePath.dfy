/** The installer's edit of a shell profile, and the uninstaller's undoing of it. */
module ProfilePath {
  import opened Wrappers

  const MARKER := "# Added by the lexicon installer"

  // ---- Rust's `lines`, `trim` and `join` ----

  /** The position of the first line feed, or the length. */
  function LineEnd(s: string): (n: nat)
    ensures n <= |s| && (n < |s| ==> s[n] == '\n')
    ensures forall i :: 0 <= i < n ==> s[i] != '\n'
  {
    if s == "" || s[0] == '\n' then 0 else 1 + LineEnd(s[1..])
  }

  function StripCr(line: string): string {
    if line != "" && line[|line| - 1] == '\r' then line[..|line| - 1] else line
  }

  /** `str::lines`: a terminated line loses its line feed and one carriage return before it. */
  function Lines(s: string): seq<string>
    decreases |s|
  {
    if s == "" then []
    else
      var n := LineEnd(s);
      if n == |s| then [s] else [StripCr(s[..n])] + Lines(s[n + 1..])
  }

  /** Unicode White_Space. */
  predicate Whitespace(c: char) {
    var n := c as int;
    0x9 <= n <= 0xD || n == 0x20 || n == 0x85 || n == 0xA0 || n == 0x1680 || 0x2000 <= n <= 0x200A
    || n == 0x2028 || n == 0x2029 || n == 0x202F || n == 0x205F || n == 0x3000
  }

  function TrimStart(s: string): string {
    if s != "" && Whitespace(s[0]) then TrimStart(s[1..]) else s
  }

  function TrimEnd(s: string): string {
    if s != "" && Whitespace(s[|s| - 1]) then TrimEnd(s[..|s| - 1]) else s
  }

  function Trim(s: string): string {
    TrimEnd(TrimStart(s))
  }

  function Join(lines: seq<string>): string {
    if lines == [] then "" else if |lines| == 1 then lines[0] else lines[0] + "\n" + Join(lines[1..])
  }

  /** Every line with its line feed. */
  function Unlines(lines: seq<string>): string {
    if lines == [] then "" else lines[0] + "\n" + Unlines(lines[1..])
  }

  lemma {:induction false} JoinIsUnlines(lines: seq<string>)
    ensures lines != [] ==> Join(lines) + "\n" == Unlines(lines)
    ensures Join(lines) == "" <==> lines == [] || lines == [""]
    decreases |lines|
  {
    if |lines| > 1 {
      JoinIsUnlines(lines[1..]);
      assert lines[0] + "\n" + Join(lines[1..]) + "\n" == lines[0] + "\n" + (Join(lines[1..]) + "\n");
    } else if |lines| == 1 {
      assert lines[1..] == [] && lines == [lines[0]];
      assert lines[0] + "\n" + "" == lines[0] + "\n";
    }
  }

  // ---- The edit and its undoing ----

  function ExportLine(entry: string): string {
    "export PATH=\"" + entry + ":$PATH\""
  }

  /** The text, with a line feed at its end unless it is empty. */
  function Terminated(p: string): string {
    if p != "" && p[|p| - 1] != '\n' then p + "\n" else p
  }

  /** What the installer writes. */
  function Append(p: string, entry: string): string {
    Terminated(p) + MARKER + "\n" + ExportLine(entry) + "\n"
  }

  predicate Dropped(line: string, entry: string) {
    Trim(line) == MARKER || Trim(line) == ExportLine(entry)
  }

  function Kept(lines: seq<string>, entry: string): seq<string> {
    if lines == [] then []
    else if Dropped(lines[0], entry) then Kept(lines[1..], entry)
    else [lines[0]] + Kept(lines[1..], entry)
  }

  /** What the uninstaller writes. */
  function Undo(contents: string, entry: string): string {
    var joined := Join(Kept(Lines(contents), entry));
    if joined != "" then joined + "\n" else joined
  }

  // ---- Undoing an edit ----

  predicate IsTerminated(t: string) {
    t == "" || t[|t| - 1] == '\n'
  }

  lemma {:induction false} LinesAppend(a: string, b: string)
    requires IsTerminated(a)
    ensures Lines(a + b) == Lines(a) + Lines(b)
    decreases |a|
  {
    if a == "" {
      assert a + b == b;
    } else {
      var n := LineEnd(a);
      LineEndAppend(a, b);
      assert (a + b)[..n] == a[..n] && (a + b)[n + 1..] == a[n + 1..] + b;
      LinesAppend(a[n + 1..], b);
    }
  }

  lemma {:induction false} LineEndAppend(a: string, b: string)
    requires a != "" && a[|a| - 1] == '\n'
    ensures LineEnd(a) < |a| && LineEnd(a + b) == LineEnd(a)
    decreases |a|
  {
    if a[0] != '\n' {
      assert (a + b)[1..] == a[1..] + b;
      LineEndAppend(a[1..], b);
    }
  }

  lemma {:induction false} LineEndIs(s: string, n: nat)
    requires n < |s| && s[n] == '\n' && forall i :: 0 <= i < n ==> s[i] != '\n'
    ensures LineEnd(s) == n
    decreases n
  {
    if n > 0 {
      LineEndIs(s[1..], n - 1);
    }
  }

  /** A line that ends neither in a line feed nor in a carriage return is read back as it is. */
  lemma OneLine(line: string)
    requires '\n' !in line && (line == "" || line[|line| - 1] != '\r')
    ensures Lines(line + "\n") == [line]
  {
    LineEndIs(line + "\n", |line|);
    assert (line + "\n")[..|line|] == line && (line + "\n")[|line| + 1..] == "";
  }

  lemma {:induction false} KeptAppend(a: seq<string>, b: seq<string>, entry: string)
    ensures Kept(a + b, entry) == Kept(a, entry) + Kept(b, entry)
    decreases |a|
  {
    if a == [] {
      assert a + b == b;
    } else {
      assert (a + b)[1..] == a[1..] + b;
      KeptAppend(a[1..], b, entry);
    }
  }

  lemma TrimmedAlready(s: string)
    requires s != "" && !Whitespace(s[0]) && !Whitespace(s[|s| - 1])
    ensures Trim(s) == s
  {
  }

  lemma OwnLinesDropped(entry: string)
    ensures Dropped(MARKER, entry) && Dropped(ExportLine(entry), entry)
  {
    TrimmedAlready(MARKER);
    TrimmedAlready(ExportLine(entry));
  }

  /** Two lines that are dropped leave no trace. */
  lemma DroppedLinesVanish(t: string, a: string, b: string, entry: string)
    requires IsTerminated(t) && Dropped(a, entry) && Dropped(b, entry)
    requires '\n' !in a && a != "" && a[|a| - 1] != '\r'
    requires '\n' !in b && b != "" && b[|b| - 1] != '\r'
    ensures Kept(Lines(t + ((a + "\n") + (b + "\n"))), entry) == Kept(Lines(t), entry)
  {
    hide Lines, Dropped;
    LinesAppend(t, (a + "\n") + (b + "\n"));
    LinesAppend(a + "\n", b + "\n");
    OneLine(a);
    OneLine(b);
    KeptAppend(Lines(t), [a] + [b], entry);
    KeptAppend([a], [b], entry);
    assert Kept([a], entry) == Kept([], entry) && Kept([b], entry) == Kept([], entry) by {
      assert [a][1..] == [] && [b][1..] == [];
    }
  }

  /** The undoing of an edit is what undoing makes of the text before the edit, terminated. */
  lemma UndoAppend(p: string, entry: string)
    requires '\n' !in entry
    ensures Undo(Append(p, entry), entry) == Undo(Terminated(p), entry)
  {
    hide Lines, Kept, Dropped, Join;
    var t, own := Terminated(p), ExportLine(entry);
    AppendedLines(t, MARKER, own);
    OwnLinesDropped(entry);
    ExportIsALine(entry);
    DroppedLinesVanish(t, MARKER, own, entry);
  }

  lemma AppendedLines(t: string, a: string, b: string)
    ensures t + a + "\n" + b + "\n" == t + ((a + "\n") + (b + "\n"))
  {
  }

  lemma ExportIsALine(entry: string)
    requires '\n' !in entry
    ensures var own := ExportLine(entry); '\n' !in own && own != "" && own[|own| - 1] == '"'
  {
  }

  // ---- What an edit adds ----

  /** The terminated text is the text itself, or the text and one line feed. */
  lemma TerminatedMeans(p: string)
    ensures IsTerminated(Terminated(p)) && p <= Terminated(p)
    ensures Terminated(p) == p <==> IsTerminated(p)
    ensures !IsTerminated(p) ==> Terminated(p) == p + "\n"
  {
  }

  /** The edited text begins with the old one, terminated; two lines follow, and the second is the export. */
  predicate Installed(before: string, after: string, entry: string) {
    && Terminated(before) <= after && IsTerminated(after)
    && ('\n' !in entry ==> Lines(after) == Lines(Terminated(before)) + [MARKER, ExportLine(entry)])
  }

  lemma AppendInstalls(p: string, entry: string)
    ensures Installed(p, Append(p, entry), entry)
    ensures Contains(Append(p, entry), ExportLine(entry) + "\n")
  {
    hide Lines, Terminated, ExportLine;
    var t, own := Terminated(p), ExportLine(entry);
    TerminatedMeans(p);
    AppendedLines(t, MARKER, own);
    if '\n' !in entry {
      ExportIsALine(entry);
      LinesAppend(t, (MARKER + "\n") + (own + "\n"));
      LinesAppend(MARKER + "\n", own + "\n");
      OneLine(MARKER);
      OneLine(own);
    }
    var whole, i := Append(p, entry), |t + MARKER + "\n"|;
    assert whole[i..] == own + "\n";
  }

  /** The text begins with a reference to `PATH`. */
  predicate StartsPath(text: string) {
    "$PATH" <= text && (|text| > 5 ==> !NameCharacter(text[5]))
  }

  predicate NameCharacter(c: char) {
    c == '_' || 'a' <= c <= 'z' || 'A' <= c <= 'Z' || '0' <= c <= '9'
  }

  /**
   * What a shell makes of the rest of a line after an opening double quote, when `PATH` is `path`
   * (POSIX.1, Shell Command Language, section 2.2.3). Escapes and other expansions are not read.
   */
  function Unquote(text: string, path: string): Option<string> {
    if text == "" then None
    else if text[0] == '\"' then if |text| == 1 then Some("") else None
    else if StartsPath(text) then
      var rest := Unquote(text[5..], path);
      if rest.None? then None else Some(path + rest.value)
    else if text[0] in "$`\\" then None
    else
      var rest := Unquote(text[1..], path);
      if rest.None? then None else Some([text[0]] + rest.value)
  }

  /** The value that a line gives to `PATH`, if it exports one. */
  function ExportedPath(line: string, path: string): Option<string> {
    var head := "export PATH=\"";
    if head <= line then Unquote(line[|head|..], path) else None
  }

  /** Every character stands for itself between double quotes. */
  predicate Literal(text: string) {
    forall i :: 0 <= i < |text| ==> text[i] !in "\"$`\\"
  }

  const REST := ":$PATH\""

  lemma {:induction false} UnquoteLiteral(entry: string, path: string)
    requires Literal(entry)
    ensures Unquote(entry + REST, path) == Some(entry + ":" + path)
    decreases |entry|
  {
    if entry == "" {
      assert entry + REST == REST && REST[1..] == "$PATH\"" && "$PATH\""[5..] == "\"";
      assert Unquote("\"", path) == Some("");
      assert Unquote("$PATH\"", path) == Some(path + "");
      assert [':'] + (path + "") == entry + ":" + path;
    } else {
      assert (entry + REST)[1..] == entry[1..] + REST;
      UnquoteLiteral(entry[1..], path);
      assert [entry[0]] + (entry[1..] + ":" + path) == entry + ":" + path;
    }
  }

  lemma PathIsInEntry(entry: string)
    requires entry != "" && StartsPath(entry + REST)
    ensures |entry| >= 5
  {
    var text := entry + REST;
    assert text[|entry|] == ':' && forall k :: 0 <= k < 5 ==> text[k] == "$PATH"[k];
  }

  /** A character that does not stand for itself makes the value shorter, when `PATH` is empty. */
  lemma {:induction false} UnquoteShort(entry: string)
    ensures var value := Unquote(entry + REST, "");
            value.Some? ==> |value.value| <= |entry| + 1 && (!Literal(entry) ==> |value.value| <= |entry|)
    decreases |entry|
  {
    var text := entry + REST;
    if entry == "" {
      UnquoteLiteral(entry, "");
    } else if StartsPath(text) {
      PathIsInEntry(entry);
      assert text[5..] == entry[5..] + REST;
      UnquoteShort(entry[5..]);
    } else {
      assert text[1..] == entry[1..] + REST;
      UnquoteShort(entry[1..]);
      assert entry == [entry[0]] + entry[1..];
    }
  }

  /** A shell that reads the line puts the entry before what `PATH` was, exactly when it takes it literally. */
  lemma ExportReads(entry: string)
    ensures Literal(entry) <==> forall path :: ExportedPath(ExportLine(entry), path) == Some(entry + ":" + path)
  {
    hide Unquote, Literal;
    var line, head := ExportLine(entry), "export PATH=\"";
    assert line == head + (entry + REST) && line[|head|..] == entry + REST;
    if Literal(entry) {
      forall path ensures ExportedPath(line, path) == Some(entry + ":" + path) {
        UnquoteLiteral(entry, path);
      }
    } else {
      UnquoteShort(entry);
      assert ExportedPath(line, "") != Some(entry + ":" + "");
    }
  }

  // ---- When undoing leaves a text alone ----

  /** Some line ends in a carriage return; the end of the text counts as the end of a line. */
  predicate EndsLineInCr(p: string) {
    exists i :: 0 <= i < |p| && p[i] == '\r' && (i + 1 == |p| || p[i + 1] == '\n')
  }

  predicate HasOwnLine(p: string, entry: string) {
    exists line :: line in Lines(p) && Dropped(line, entry)
  }

  /** Reading lines and writing them back loses exactly the carriage returns at their ends. */
  lemma {:induction false} LinesLength(t: string)
    requires IsTerminated(t)
    ensures |Unlines(Lines(t))| <= |t|
    ensures |Unlines(Lines(t))| == |t| <==> !EndsLineInCr(t)
    ensures !EndsLineInCr(t) ==> Unlines(Lines(t)) == t
    decreases |t|
  {
    hide EndsLineInCr, LineEnd, Lines, Unlines;
    if t == "" {
      NoLineInEmpty();
      assert Lines(t) == [] && Unlines([]) == "" by { NoLines(); }
    } else {
      LineEndAppend(t, "");
      assert t + "" == t;
      var n := LineEnd(t);
      var line, rest := t[..n], t[n + 1..];
      LinesLength(rest);
      LineInCr(t, n);
      assert t == line + "\n" + rest;
      LinesCons(t);
      UnlinesCons(StripCr(line), Lines(rest));
    }
  }

  lemma NoLines()
    ensures Lines("") == [] && Unlines([]) == ""
  {
  }

  lemma LinesCons(t: string)
    requires t != "" && LineEnd(t) < |t|
    ensures Lines(t) == [StripCr(t[..LineEnd(t)])] + Lines(t[LineEnd(t) + 1..])
  {
  }

  lemma NoLineInEmpty()
    ensures !EndsLineInCr("")
  {
  }

  lemma UnlinesCons(line: string, lines: seq<string>)
    ensures Unlines([line] + lines) == line + "\n" + Unlines(lines)
  {
    assert ([line] + lines)[1..] == lines;
  }

  /** The carriage returns at ends of lines are at the end of the first line, or of one of the others. */
  lemma LineInCr(t: string, n: nat)
    requires n < |t| && t[n] == '\n' && forall i :: 0 <= i < n ==> t[i] != '\n'
    requires n + 1 < |t| ==> t[|t| - 1] == '\n'
    ensures EndsLineInCr(t) <==> (n > 0 && t[n - 1] == '\r') || EndsLineInCr(t[n + 1..])
  {
    var rest := t[n + 1..];
    if i :| 0 <= i < |rest| && rest[i] == '\r' && (i + 1 == |rest| || rest[i + 1] == '\n') {
      var k := n + 1 + i;
      assert t[k] == '\r' && (k + 1 == |t| || t[k + 1] == '\n');
    }
    if i :| 0 <= i < |t| && t[i] == '\r' && (i + 1 == |t| || t[i + 1] == '\n') {
      if i > n {
        assert rest[i - n - 1] == '\r';
      }
    }
  }

  lemma {:induction false} KeptLength(lines: seq<string>, entry: string)
    ensures |Unlines(Kept(lines, entry))| <= |Unlines(lines)|
    ensures |Unlines(Kept(lines, entry))| == |Unlines(lines)|
            <==> forall line :: line in lines ==> !Dropped(line, entry)
    ensures (forall line :: line in lines ==> !Dropped(line, entry)) ==> Kept(lines, entry) == lines
    decreases |lines|
  {
    if lines != [] {
      KeptLength(lines[1..], entry);
      assert lines == [lines[0]] + lines[1..];
      var kept := Kept(lines[1..], entry);
      assert ([lines[0]] + kept)[1..] == kept;
    }
  }

  lemma EmptyIsKept(entry: string)
    ensures !Dropped("", entry)
  {
    assert |Trim("")| == 0 && |MARKER| > 0 && |ExportLine(entry)| > 0;
  }

  /** Undoing changes nothing exactly when there is nothing of the installer's in the text. */
  lemma UndoIsIdentity(t: string, entry: string)
    requires IsTerminated(t)
    ensures Undo(t, entry) == t <==> t != "\n" && !EndsLineInCr(t) && !HasOwnLine(t, entry)
  {
    hide Dropped, Kept, Lines;
    var lines := Lines(t);
    var kept := Kept(lines, entry);
    LinesLength(t);
    KeptLength(lines, entry);
    JoinIsUnlines(kept);
    EmptyIsKept(entry);
    OneLine("");
    assert "" + "\n" == "\n";
    UnlinesCons("", []);
    assert [""] + [] == [""];
  }

  lemma LastLine(p: string)
    requires p != "" && LineEnd(p) == |p|
    ensures Lines(p) == [p]
  {
  }

  lemma {:induction false} LinesTerminated(p: string)
    requires p != "" && p[|p| - 1] != '\n' && p[|p| - 1] != '\r'
    ensures Lines(p + "\n") == Lines(p)
    decreases |p|
  {
    hide Lines;
    var n := LineEnd(p);
    if n == |p| {
      LastLine(p);
      OneLine(p);
    } else {
      var first, rest := p[..n + 1], p[n + 1..];
      assert p == first + rest && first[n] == '\n';
      LinesAppend(first, rest);
      LinesAppend(first, rest + "\n");
      assert p + "\n" == first + (rest + "\n");
      LinesTerminated(rest);
    }
  }

  /**
   * Installing and uninstalling gives a profile back, with a line feed at its end if it was not empty,
   * exactly when it is not a single empty line, no line of it ends in a carriage return, and no line of
   * it looks like the installer's own.
   */
  lemma RoundTrip(p: string, entry: string)
    requires '\n' !in entry
    ensures Undo(Append(p, entry), entry) == Terminated(p)
            <==> p != "\n" && !EndsLineInCr(p) && !HasOwnLine(p, entry)
  {
    hide Undo, Append, Lines;
    var t := Terminated(p);
    UndoAppend(p, entry);
    UndoIsIdentity(t, entry);
    if p != t {
      assert t == p + "\n" && t[..|p|] == p;
      if p[|p| - 1] != '\r' {
        LinesTerminated(p);
      } else {
        assert p[|p| - 1] == '\r' && t[|p|] == '\n' && t[|p| - 1] == '\r';
      }
      assert EndsLineInCr(t) <==> EndsLineInCr(p) by {
        if i :| 0 <= i < |p| && p[i] == '\r' && (i + 1 == |p| || p[i + 1] == '\n') {
          assert t[i] == '\r' && t[i + 1] == '\n';
        }
        if i :| 0 <= i < |t| && t[i] == '\r' && (i + 1 == |t| || t[i + 1] == '\n') {
          assert p[i] == '\r' && (i + 1 == |p| || p[i + 1] == '\n');
        }
      }
    }
  }

  // ---- The profiles of a home directory ----

  predicate Contains(s: string, part: string) {
    exists i :: 0 <= i <= |s| && part <= s[i..]
  }

  /** The startup files, the one that `$SHELL` points to first. */
  function Candidates(shell: string): (candidates: seq<string>)
    ensures |candidates| == 3
    ensures candidates[0] == if Contains(shell, "zsh") then ".zshrc"
                             else if Contains(shell, "bash") then ".bashrc" else ".profile"
    ensures forall i, j :: 0 <= i < j < 3 ==> candidates[i] != candidates[j]
    ensures forall name :: name in candidates <==> name == ".bashrc" || name == ".zshrc" || name == ".profile"
  {
    var files := [".bashrc", ".profile", ".zshrc"];
    assert files[0][1] != files[1][1] && files[0][1] != files[2][1] && files[1][1] != files[2][1];
    if Contains(shell, "zsh") then [files[2], files[0], files[1]]
    else if Contains(shell, "bash") then files
    else [files[1], files[0], files[2]]
  }

  /** A profile that is there: text, or something that cannot be read as text. */
  datatype Profile = Text(text: string) | Opaque

  /** A write may be refused before it changes anything, or fail after it has changed something. */
  datatype WriteIo = Written | Refused | Torn(left: string)

  /** How trying one candidate turns out. */
  datatype Trial = Trial(write: WriteIo, pickedUp: bool, rollback: WriteIo)

  datatype Modification = Modification(modified: bool, location: string)

  type Profiles = map<string, Profile>

  /** `read_to_string(..).unwrap_or_default()`: nothing readable is as good as nothing. */
  function Readable(profiles: Profiles, path: string): string {
    if path in profiles && profiles[path].Text? then profiles[path].text else ""
  }

  /** The profiles after a write. */
  function Wrote(profiles: Profiles, path: string, text: string, io: WriteIo): Profiles {
    match io
    case Written => profiles[path := Text(text)]
    case Refused => profiles
    case Torn(left) => profiles[path := Text(left)]
  }

  /** Trying the candidates from the `k`th on: the profiles afterwards, and the report. */
  function TryFrom(profiles: Profiles, candidates: seq<string>, k: nat, entry: string, trials: seq<Trial>)
    : (Profiles, Option<Modification>)
    requires k < |candidates| == |trials|
    decreases |candidates| - k
  {
    var path, trial := candidates[k], trials[k];
    var existing := Readable(profiles, path);
    var after := Wrote(profiles, path, Append(existing, entry), trial.write);
    var restored := Wrote(after, path, existing, trial.rollback);
    if Contains(existing, ExportLine(entry) + "\n") then (profiles, Some(Modification(false, path)))
    else if !trial.write.Written? then (after, None)
    else if trial.pickedUp || k == |candidates| - 1 then (after, Some(Modification(true, path)))
    else if !trial.rollback.Written? then (restored, None)
    else TryFrom(restored, candidates, k + 1, entry, trials)
  }

  class Home {
    var profiles: Profiles

    method Write(path: string, text: string, io: WriteIo) returns (ok: bool)
      modifies this
      ensures ok <==> io.Written?
      ensures profiles == Wrote(old(profiles), path, text, io)
    {
      match io
      case Written =>
        profiles := profiles[path := Text(text)];
        return true;
      case Refused =>
        return false;
      case Torn(left) =>
        profiles := profiles[path := Text(left)];
        return false;
    }

    /**
     * `ensure_linux_path_via_profile`. The text of at most one profile changes: the one that is reported,
     * or, if nothing is, the one whose write failed.
     * A candidate that is rolled back holds afterwards what could be read of it before: nothing, if it
     * was not there or was not text.
     */
    method EnsurePath(shell: string, entry: string, trials: seq<Trial>) returns (r: Option<Modification>)
      requires |trials| == |Candidates(shell)|
      modifies this
      ensures (profiles, r) == TryFrom(old(profiles), Candidates(shell), 0, entry, trials)
      ensures r.Some? ==> && r.value.location in Candidates(shell)
                          && (forall path :: path != r.value.location
                                             ==> Readable(profiles, path) == Readable(old(profiles), path))
                          && (forall path :: && path != r.value.location
                                             && path in old(profiles) && old(profiles)[path].Text?
                                             ==> path in profiles && profiles[path] == old(profiles)[path])
      ensures r.Some? && r.value.modified
              ==> && r.value.location in profiles && profiles[r.value.location].Text?
                  && Installed(Readable(old(profiles), r.value.location), profiles[r.value.location].text, entry)
      ensures r.Some? && !r.value.modified
              ==> && Contains(Readable(profiles, r.value.location), ExportLine(entry) + "\n")
                  && Readable(profiles, r.value.location) == Readable(old(profiles), r.value.location)
      ensures forall path :: path !in Candidates(shell) ==> Untouched(old(profiles), profiles, path)
      ensures r.Some?
              ==> exists k :: && 0 <= k < 3 && Candidates(shell)[k] == r.value.location
                              && forall j :: 0 <= j < k ==> RolledBack(old(profiles), profiles, Candidates(shell)[j])
      ensures r.None?
              ==> exists k :: && 0 <= k < 3 && (!trials[k].write.Written? || !trials[k].rollback.Written?)
                              && forall path :: path != Candidates(shell)[k]
                                                ==> Readable(profiles, path) == Readable(old(profiles), path)
    {
      hide Append, ExportLine, Contains, Candidates, Readable, RolledBack, Installed, Untouched;
      var candidates := Candidates(shell);
      var index := 0;
      NothingTried(profiles);
      assert candidates[..0] == [];
      while index < |candidates|
        invariant 0 <= index < 3
        invariant Restored(old(profiles), profiles, candidates[..index])
        invariant TryFrom(old(profiles), candidates, 0, entry, trials)
               == TryFrom(profiles, candidates, index, entry, trials)
        decreases 3 - index
      {
        var path := candidates[index];
        assert path !in candidates[..index];
        ReadsRestored(old(profiles), profiles, candidates[..index]);
        var existing := Readable(profiles, path);
        if Contains(existing, ExportLine(entry) + "\n") {
          return Some(Modification(false, path));
        }
        ghost var before := profiles;
        AppendInstalls(existing, entry);
        var written := Write(path, Append(existing, entry), trials[index].write);
        ReadsElsewhere(before, profiles, path);
        KeepsRestored(old(profiles), before, profiles, candidates[..index], path);
        if !written {
          return None;
        }
        if trials[index].pickedUp {
          return Some(Modification(true, path));
        }
        if index == |candidates| - 1 {
          return Some(Modification(true, path));
        }
        var restored := Write(path, existing, trials[index].rollback);
        ReadsElsewhere(before, profiles, path);
        KeepsRestored(old(profiles), before, profiles, candidates[..index], path);
        if !restored {
          return None;
        }
        Restores(old(profiles), before, profiles, candidates[..index], path);
        assert candidates[..index + 1] == candidates[..index] + [path];
        index := index + 1;
      }
    }

    /** `reverse_profile_append`: a profile that is not text is left alone. */
    method ReverseAppend(location: string, entry: string, io: WriteIo)
      modifies this
      ensures forall path :: path != location ==> Untouched(old(profiles), profiles, path)
      ensures location in old(profiles) && old(profiles)[location].Text? && io.Written?
              ==> profiles == old(profiles)[location := Text(Undo(old(profiles)[location].text, entry))]
      ensures location !in old(profiles) || old(profiles)[location].Opaque? ==> profiles == old(profiles)
    {
      if location !in profiles || profiles[location].Opaque? {
        return;
      }
      var contents := profiles[location].text;
      var kept: seq<string> := [];
      var lines := Lines(contents);
      var i := 0;
      while i < |lines|
        invariant 0 <= i <= |lines|
        invariant kept == Kept(lines[..i], entry) && profiles == old(profiles)
      {
        KeptAppend(lines[..i], [lines[i]], entry);
        assert lines[..i + 1] == lines[..i] + [lines[i]];
        assert Kept([lines[i]], entry) == if Dropped(lines[i], entry) then [] else [lines[i]] by {
          assert [lines[i]][1..] == [];
        }
        if Trim(lines[i]) != MARKER && Trim(lines[i]) != ExportLine(entry) {
          kept := kept + [lines[i]];
        }
        i := i + 1;
      }
      assert lines[..i] == lines;
      var text := Join(kept);
      if text != "" {
        text := text + "\n";
      }
      var _ := Write(location, text, io);
    }
  }

  // ---- Installing again ----

  /** A candidate that is tried, does not take effect, and is rolled back. */
  predicate Passed(trial: Trial) {
    trial.write.Written? && !trial.pickedUp && trial.rollback.Written?
  }

  /** Every candidate before the one reported has been rolled back, and the one reported holds the export line. */
  lemma {:induction false} TriedInOrder(profiles: Profiles, candidates: seq<string>, k: nat, entry: string,
                                        trials: seq<Trial>)
    requires k < |candidates| == |trials| && TryFrom(profiles, candidates, k, entry, trials).1.Some?
    requires forall i, j :: 0 <= i < j < |candidates| ==> candidates[i] != candidates[j]
    ensures var (after, r) := TryFrom(profiles, candidates, k, entry, trials);
            exists n :: && k <= n < |candidates| && candidates[n] == r.value.location
                        && (forall j :: k <= j < n ==> Passed(trials[j]) && Reverted(after, candidates[j], entry))
                        && Contains(Readable(after, candidates[n]), ExportLine(entry) + "\n")
                        && (forall j :: 0 <= j < k ==> Untouched(profiles, after, candidates[j]))
    decreases |candidates| - k
  {
    hide Append, ExportLine, Contains;
    var (after, r) := TryFrom(profiles, candidates, k, entry, trials);
    var path, existing := candidates[k], Readable(profiles, candidates[k]);
    AppendInstalls(existing, entry);
    if !Contains(existing, ExportLine(entry) + "\n") && !trials[k].pickedUp && k < |candidates| - 1 {
      var restored := Wrote(Wrote(profiles, path, Append(existing, entry), trials[k].write), path, existing,
                            trials[k].rollback);
      TriedInOrder(restored, candidates, k + 1, entry, trials);
      assert Reverted(after, path, entry);
    } else {
      assert candidates[k] == r.value.location;
    }
  }

  /** A text profile without the export line. */
  predicate Reverted(profiles: Profiles, path: string, entry: string) {
    path in profiles && profiles[path].Text? && !Contains(profiles[path].text, ExportLine(entry) + "\n")
  }

  /** Candidates that are passed over again, one after the other, are left as they are. */
  lemma {:induction false} PassesOver(profiles: Profiles, candidates: seq<string>, k: nat, n: nat, entry: string,
                                      trials: seq<Trial>)
    requires k <= n < |candidates| == |trials|
    requires forall j :: k <= j < n ==> Passed(trials[j]) && Reverted(profiles, candidates[j], entry)
    requires Contains(Readable(profiles, candidates[n]), ExportLine(entry) + "\n")
    ensures TryFrom(profiles, candidates, k, entry, trials)
            == (profiles, Some(Modification(false, candidates[n])))
    decreases n - k
  {
    hide Append, ExportLine, Contains;
    if k < n {
      var path, existing := candidates[k], Readable(profiles, candidates[k]);
      assert Passed(trials[k]) && Reverted(profiles, path, entry);
      assert profiles[path := Text(Append(existing, entry))][path := Text(existing)] == profiles;
      PassesOver(profiles, candidates, k + 1, n, entry, trials);
    }
  }

  /**
   * Installing again, when the candidates that did not take effect again do not, reports the same profile
   * as not modified and changes nothing.
   */
  lemma InstallsOnce(profiles: Profiles, shell: string, entry: string, trials: seq<Trial>, again: seq<Trial>)
    requires |trials| == |again| == |Candidates(shell)|
    requires TryFrom(profiles, Candidates(shell), 0, entry, trials).1.Some?
    requires forall j :: 0 <= j < |trials| && Passed(trials[j]) ==> Passed(again[j])
    ensures var (after, r) := TryFrom(profiles, Candidates(shell), 0, entry, trials);
            TryFrom(after, Candidates(shell), 0, entry, again) == (after, Some(Modification(false, r.value.location)))
  {
    hide Append, ExportLine, Contains, Candidates, TryFrom, Passed, Reverted;
    var candidates := Candidates(shell);
    var (after, r) := TryFrom(profiles, candidates, 0, entry, trials);
    TriedInOrder(profiles, candidates, 0, entry, trials);
    var n :| && 0 <= n < |candidates| && candidates[n] == r.value.location
             && (forall j :: 0 <= j < n ==> Passed(trials[j]) && Reverted(after, candidates[j], entry))
             && Contains(Readable(after, candidates[n]), ExportLine(entry) + "\n");
    PassesOver(after, candidates, 0, n, entry, again);
  }

  /** The candidate is back to what could be read of it. */
  predicate RolledBack(before: Profiles, after: Profiles, path: string) {
    path in after && after[path] == Text(Readable(before, path))
  }

  /** The profile is what it was. */
  predicate Untouched(before: Profiles, after: Profiles, path: string) {
    (path in after <==> path in before) && (path in after ==> after[path] == before[path])
  }

  /** The candidates tried are rolled back, and nothing else has been touched. */
  ghost predicate Restored(before: Profiles, after: Profiles, tried: seq<string>) {
    && (forall path :: path in tried ==> RolledBack(before, after, path))
    && (forall path :: path !in tried ==> Untouched(before, after, path))
  }

  lemma NothingTried(profiles: Profiles)
    ensures Restored(profiles, profiles, [])
  {
  }

  lemma ReadsRestored(before: Profiles, after: Profiles, tried: seq<string>)
    requires Restored(before, after, tried)
    ensures forall path :: Readable(after, path) == Readable(before, path)
    ensures forall path :: path in before && before[path].Text? ==> path in after && after[path] == before[path]
  {
    forall path ensures Readable(after, path) == Readable(before, path) {
      assert path in tried ==> RolledBack(before, after, path);
      assert path !in tried ==> Untouched(before, after, path);
    }
    forall path | path in before && before[path].Text? ensures path in after && after[path] == before[path] {
      assert path in tried ==> RolledBack(before, after, path);
      assert path !in tried ==> Untouched(before, after, path);
    }
  }

  lemma ReadsElsewhere(before: Profiles, after: Profiles, path: string)
    requires after == before || (path in after && after == before[path := after[path]])
    ensures forall other :: other != path ==> Readable(after, other) == Readable(before, other)
    ensures forall other :: other != path ==> Untouched(before, after, other)
  {
  }

  lemma KeepsRestored(first: Profiles, before: Profiles, after: Profiles, tried: seq<string>, path: string)
    requires Restored(first, before, tried) && path !in tried
    requires forall other :: other != path ==> Untouched(before, after, other)
    ensures forall other :: other in tried ==> RolledBack(first, after, other)
    ensures forall other :: other !in tried && other != path ==> Untouched(first, after, other)
  {
    forall other | other in tried ensures RolledBack(first, after, other) {
      assert RolledBack(first, before, other) && Untouched(before, after, other);
    }
    forall other | other !in tried && other != path ensures Untouched(first, after, other) {
      assert Untouched(first, before, other) && Untouched(before, after, other);
    }
  }

  lemma Restores(first: Profiles, before: Profiles, after: Profiles, tried: seq<string>, path: string)
    requires Restored(first, before, tried) && path !in tried
    requires forall other :: other != path ==> Untouched(before, after, other)
    requires path in after && after[path] == Text(Readable(before, path))
    ensures Restored(first, after, tried + [path])
  {
    hide Untouched;
    ReadsRestored(first, before, tried);
    KeepsRestored(first, before, after, tried, path);
  }
}
