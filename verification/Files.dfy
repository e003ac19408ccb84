// Configuration files as text: what is written is read back, and nothing read from a file
// holds a line feed.
module Files {
  import opened Text
  import opened Settings
  import opened Config

  // ------------------------------------------------------------------- trimming

  predicate Blanks(s: string) {
    forall i | 0 <= i < |s| :: IsSpace(s[i])
  }

  /** No white space at either end. */
  predicate Bare(s: string) {
    s != "" ==> !IsSpace(s[0]) && !IsSpace(s[|s| - 1])
  }

  lemma {:induction false} InkFromIs(s: string, i: nat, j: nat)
    requires i <= j <= |s| && (forall m | i <= m < j :: IsSpace(s[m])) && (j < |s| ==> !IsSpace(s[j]))
    ensures InkFrom(s, i) == j
    decreases j - i
  {
    if i < j {
      InkFromIs(s, i + 1, j);
    }
  }

  lemma {:induction false} InkUpToIs(s: string, lo: nat, hi: nat, j: nat)
    requires lo <= j <= hi <= |s| && (forall m | j <= m < hi :: IsSpace(s[m])) && (j > lo ==> !IsSpace(s[j - 1]))
    ensures InkUpTo(s, lo, hi) == j
    decreases hi - j
  {
    if j < hi {
      InkUpToIs(s, lo, hi - 1, j);
    }
  }

  lemma TrimmedInside(a: string, x: string, b: string)
    requires Blanks(a) && Blanks(b) && Bare(x)
    ensures Trimmed(a + x + b) == x
  {
    var s := a + x + b;
    if x == "" {
      assert Blanks(s);
      InkFromIs(s, 0, |s|);
    } else {
      InkFromIs(s, 0, |a|);
      InkUpToIs(s, |a|, |s|, |a| + |x|);
      assert s[|a|..|a| + |x|] == x;
    }
  }

  // ------------------------------------------------------------------ written lines

  /** A line as an author writes it, with white space around its parts. */
  datatype Entry =
    | Section(lead: string, gap: string, name: string, tail: string)
    | Setting(lead: string, key: string, before: string, after: string, value: string, tail: string)
    | Note(lead: string, mark: char, text: string)
    | Gap(lead: string)

  predicate Inline(s: string) {
    '\n' !in s
  }

  function Bracketed(gap: string, name: string): string {
    "[NETWORK " + (gap + name) + "]"
  }

  function Show(e: Entry): string {
    match e
    case Section(lead, gap, name, tail) => lead + Bracketed(gap, name) + (tail + "\n")
    case Setting(lead, key, before, after, value, tail) => lead + key + (before + "=" + (after + value + (tail + "\n")))
    case Note(lead, mark, text) => lead + ([mark] + text + "\n")
    case Gap(lead) => lead + "\n"
  }

  predicate Proper(e: Entry) {
    && |Show(e)| <= 319 && Blanks(e.lead) && Inline(e.lead)
    && match e
       case Section(_, gap, name, tail) =>
         Blanks(gap) && Blanks(tail) && Inline(gap) && Inline(tail)
         && name != "" && Bare(name) && ']' !in name && Inline(name)
       case Setting(_, key, before, after, value, tail) =>
         Blanks(before) && Blanks(after) && Blanks(tail) && Inline(before) && Inline(after) && Inline(tail)
         && key != "" && Bare(key) && '=' !in key && Inline(key) && key[0] != '#' && key[0] != ';' && key[0] != '['
         && Bare(value) && Inline(value)
       case Note(_, mark, text) => (mark == '#' || mark == ';') && Inline(text)
       case Gap(_) => true
  }

  /** What the line says; keys count in any spelling the program knows. */
  function Says(e: Entry): Item {
    match e
    case Section(_, _, name, _) => Header(name)
    case Setting(_, key, _, _, value, _) =>
      (match FindKey(key) case Some(k) => Assign(k, value) case None => Blank)
    case _ => Blank
  }

  lemma NewlineIsBlank(s: string)
    requires Blanks(s)
    ensures Blanks(s + "\n")
  {
  }

  lemma SectionParses(e: Entry)
    requires Proper(e) && e.Section?
    ensures Parse(Show(e)) == Says(e)
  {
    var line := Bracketed(e.gap, e.name);
    SectionLine(e);
    SectionCloses(e.gap, e.name);
    SectionName(e.gap, e.name);
    ParseHeader(Show(e), line, "NETWORK " + (e.gap + e.name));
  }

  lemma SectionLine(e: Entry)
    requires Proper(e) && e.Section?
    ensures Trimmed(Show(e)) == Bracketed(e.gap, e.name)
  {
    NewlineIsBlank(e.tail);
    var line := Bracketed(e.gap, e.name);
    assert line[0] == '[' && line[|line| - 1] == ']';
    TrimmedInside(e.lead, line, e.tail + "\n");
  }

  lemma SectionCloses(gap: string, name: string)
    requires Blanks(gap) && ']' !in name
    ensures var line := "[NETWORK " + (gap + name) + "]";
            && line[0] == '[' && IndexOf(line, ']') == |line| - 1 && line[1..|line| - 1] == "NETWORK " + (gap + name)
  {
    var front := "[NETWORK " + (gap + name);
    BlanksHold(gap, ']');
    assert (front + "]")[..|front|] == front && ']' !in front;
    IndexOfUnique(front + "]", ']', |front|);
    assert front[1..] == "NETWORK " + (gap + name);
  }

  lemma ParseHeader(piece: string, line: string, inside: string)
    requires Trimmed(piece) == line && line != "" && line[0] == '['
    requires IndexOf(line, ']') == |line| - 1 && |line| > 1 && Trimmed(line[1..|line| - 1]) == inside
    requires |inside| > 8 && StartsWith(inside, "NETWORK ")
    ensures Parse(piece) == Header(Trimmed(inside[8..]))
  {
  }

  lemma BlanksHold(s: string, c: char)
    requires Blanks(s) && !IsSpace(c)
    ensures c !in s
  {
  }

  lemma SectionName(gap: string, name: string)
    requires Blanks(gap) && name != "" && Bare(name)
    ensures var inside := "NETWORK " + (gap + name);
            Trimmed(inside) == inside && |inside| > 8 && StartsWith(inside, "NETWORK ") && Trimmed(inside[8..]) == name
  {
    var inside := "NETWORK " + (gap + name);
    assert inside[|inside| - 1] == name[|name| - 1];
    TrimmedInside("", inside, "");
    assert "" + inside + "" == inside;
    TrimmedInside(gap, name, "");
    assert inside[8..] == gap + name + "";
  }

  lemma SettingParses(e: Entry)
    requires Proper(e) && e.Setting?
    ensures Parse(Show(e)) == Says(e)
  {
    hide Trimmed, Parse, FindKey, Bare;
    var shown := if e.value == "" then "" else e.after + e.value;
    var left := e.key + e.before;
    SettingLine(e, left, shown);
    SettingParts(left, shown);
    TrimmedInside("", e.key, e.before);
    assert "" + e.key + e.before == left;
    if e.value == "" {
      TrimmedInside("", "", "");
      assert "" + "" + "" == "";
    } else {
      TrimmedInside(e.after, e.value, "");
      assert e.after + e.value + "" == shown;
    }
    ParseAssign(Show(e), left, shown, e.key, e.value);
  }

  lemma SettingParts(left: string, shown: string)
    requires '=' !in left
    ensures var line := left + "=" + shown;
            IndexOf(line, '=') == |left| && line[..|left|] == left && line[|left| + 1..] == shown
  {
    var line := left + "=" + shown;
    assert line[..|left|] == left && line[|left| + 1..] == shown;
    IndexOfUnique(line, '=', |left|);
  }

  lemma ParseAssign(piece: string, left: string, shown: string, key: string, value: string)
    requires Trimmed(piece) == left + "=" + shown && left != "" && left[0] != '#' && left[0] != ';' && left[0] != '['
    requires var line := left + "=" + shown;
             IndexOf(line, '=') == |left| && line[..|left|] == left && line[|left| + 1..] == shown
    requires Trimmed(left) == key && Trimmed(shown) == value
    ensures Parse(piece) == match FindKey(key) case Some(k) => Assign(k, value) case None => Blank
  {
    assert (left + "=" + shown)[0] == left[0];
  }

  /** The trimmed line ends with the value, or with the sign when there is none. */
  lemma SettingLine(e: Entry, left: string, shown: string)
    requires Proper(e) && e.Setting?
    requires left == e.key + e.before && shown == if e.value == "" then "" else e.after + e.value
    ensures Trimmed(Show(e)) == left + "=" + shown && '=' !in left && left[0] == e.key[0]
  {
    NewlineIsBlank(e.tail);
    BlanksHold(e.before, '=');
    var line := left + "=" + shown;
    var tail := if e.value == "" then e.after + (e.tail + "\n") else e.tail + "\n";
    assert line[0] == e.key[0];
    assert line[|line| - 1] == if e.value == "" then '=' else e.value[|e.value| - 1];
    SettingShown(e.lead, e.key, e.before, e.after, e.value, e.tail + "\n");
    TrimmedInside(e.lead, line, tail);
  }

  lemma SettingShown(lead: string, key: string, before: string, after: string, value: string, tail: string)
    ensures lead + key + (before + "=" + (after + value + tail)) == lead + (key + before + "=" + (after + value)) + tail
    ensures value == "" ==>
              lead + key + (before + "=" + (after + value + tail)) == lead + (key + before + "=" + "") + (after + tail)
  {
  }

  lemma NoteParses(e: Entry)
    requires Proper(e) && e.Note?
    ensures Parse(Show(e)) == Says(e)
  {
    var s := Show(e);
    assert s[|e.lead|] == e.mark;
    InkFromIs(s, 0, |e.lead|);
    InkKeeps(s, |e.lead|, |s|);
  }

  lemma {:induction false} InkKeeps(s: string, lo: nat, hi: nat)
    requires lo < hi <= |s| && !IsSpace(s[lo])
    ensures InkUpTo(s, lo, hi) > lo
    decreases hi
  {
    if IsSpace(s[hi - 1]) {
      InkKeeps(s, lo, hi - 1);
    }
  }

  lemma GapParses(e: Entry)
    requires Proper(e) && e.Gap?
    ensures Parse(Show(e)) == Says(e)
  {
    NewlineIsBlank(e.lead);
    TrimmedInside(Show(e), "", "");
    assert Show(e) + "" + "" == Show(e);
  }

  /** Every written line says what its author meant. */
  lemma EntryParses(e: Entry)
    requires Proper(e)
    ensures Parse(Show(e)) == Says(e)
  {
    match e {
      case Section(_, _, _, _) => SectionParses(e);
      case Setting(_, _, _, _, _, _) => SettingParses(e);
      case Note(_, _, _) => NoteParses(e);
      case Gap(_) => GapParses(e);
    }
  }

  // ------------------------------------------------------------------- written files

  function ShowAll(entries: seq<Entry>): string {
    if entries == [] then "" else Show(entries[0]) + ShowAll(entries[1..])
  }

  function AllSay(entries: seq<Entry>): (r: seq<Item>)
    ensures |r| == |entries|
  {
    seq(|entries|, i requires 0 <= i < |entries| => Says(entries[i]))
  }

  lemma ShowIsLine(e: Entry)
    requires Proper(e)
    ensures Show(e) != "" && Show(e)[|Show(e)| - 1] == '\n' && Inline(Show(e)[..|Show(e)| - 1])
  {
    var s := Show(e);
    match e {
      case Section(lead, gap, name, tail) =>
        assert s[..|s| - 1] == lead + ("[NETWORK " + (gap + name) + "]") + tail;
      case Setting(lead, key, before, after, value, tail) =>
        assert s[..|s| - 1] == lead + key + (before + "=" + (after + value + tail));
      case Note(lead, mark, text) =>
        assert s[..|s| - 1] == lead + ([mark] + text);
      case Gap(lead) =>
        assert s[..|s| - 1] == lead;
    }
  }

  /** `fgets` returns a short line whole. */
  lemma FirstPiece(line: string, rest: string)
    requires 0 < |line| <= 319 && line[|line| - 1] == '\n' && Inline(line[..|line| - 1])
    ensures Pieces(line + rest) == [line] + Pieces(rest)
  {
    var file := line + rest;
    assert file[..|line| - 1] == line[..|line| - 1];
    IndexOfUnique(file, '\n', |line| - 1);
    assert file[..|line|] == line && file[|line|..] == rest;
  }

  lemma {:induction false} PiecesShown(entries: seq<Entry>)
    requires forall i | 0 <= i < |entries| :: Proper(entries[i])
    ensures |Pieces(ShowAll(entries))| == |entries|
    ensures forall i | 0 <= i < |entries| :: Pieces(ShowAll(entries))[i] == Show(entries[i])
  {
    if entries != [] {
      PiecesShown(entries[1..]);
      ShowIsLine(entries[0]);
      FirstPiece(Show(entries[0]), ShowAll(entries[1..]));
    }
  }

  /** A file written line by line is read back line by line. */
  lemma FileParses(entries: seq<Entry>)
    requires forall i | 0 <= i < |entries| :: Proper(entries[i])
    ensures Items(Pieces(ShowAll(entries))) == AllSay(entries)
  {
    var pieces := Pieces(ShowAll(entries));
    PiecesShown(entries);
    forall i | 0 <= i < |entries|
      ensures Items(pieces)[i] == AllSay(entries)[i]
    {
      EntryParses(entries[i]);
    }
  }

  /** The pieces joined again. */
  function Together(pieces: seq<string>): string {
    if pieces == [] then "" else pieces[0] + Together(pieces[1..])
  }

  /** For any file: nothing is lost or moved, no piece is longer than the buffer, and one that is not the
      last ends a line or fills the buffer. */
  lemma {:induction false} PiecesAreTheFile(file: string)
    ensures var pieces := Pieces(file);
            && Together(pieces) == file
            && forall i | 0 <= i < |pieces| ::
                 && 0 < |pieces[i]| <= 319
                 && (i < |pieces| - 1 ==> pieces[i][|pieces[i]| - 1] == '\n' || |pieces[i]| == 319)
    decreases |file|
  {
    hide Pieces;
    NoPieces();
    if file != "" {
      var n := OnePiece(file);
      var rest := Pieces(file[n..]);
      PiecesAreTheFile(file[n..]);
      NothingAfter(file, n);
      assert ([file[..n]] + rest)[1..] == rest;
      assert file == file[..n] + file[n..];
    }
  }

  lemma NoPieces()
    ensures Pieces("") == []
  {
  }

  lemma NothingAfter(file: string, n: nat)
    requires n <= |file|
    ensures Pieces(file[n..]) != [] ==> n < |file|
  {
  }

  lemma OnePiece(file: string) returns (n: nat)
    requires file != ""
    ensures 0 < n <= |file| && n <= 319 && Pieces(file) == [file[..n]] + Pieces(file[n..])
    ensures n < |file| ==> file[n - 1] == '\n' || n == 319
  {
    n := |Pieces(file)[0]|;
    assert Pieces(file)[0] in Pieces(file);
  }

  // -------------------------------------------------------------------- line feeds

  /** A piece of a file: a line feed only at its end. */
  predicate Piece(p: string) {
    p != "" ==> Inline(p[..|p| - 1])
  }

  lemma {:induction false} PiecesArePieces(file: string)
    ensures forall i | 0 <= i < |Pieces(file)| :: Piece(Pieces(file)[i])
    decreases |file|
  {
    if file != "" {
      var nl := IndexOf(file, '\n');
      var n := |Pieces(file)[0]|;
      assert Pieces(file)[0] == file[..n] && n <= nl + 1;
      assert file[..n][..n - 1] <= file[..nl];
      PiecesArePieces(file[n..]);
    }
  }

  lemma TrimmedInline(p: string)
    requires Piece(p)
    ensures Inline(Trimmed(p))
  {
    var start := InkFrom(p, 0);
    var end := InkUpTo(p, start, |p|);
    forall i | start <= i < end
      ensures p[i] != '\n'
    {
      if i < |p| - 1 {
        assert p[..|p| - 1][i] == p[i];
      } else {
        assert i == end - 1 && !IsSpace(p[i]);
      }
    }
  }

  predicate InlineItem(item: Item) {
    match item
    case Blank => true
    case Header(name) => Inline(name)
    case Assign(_, value) => Inline(value)
  }

  lemma PartInline(s: string, lo: nat, hi: nat)
    requires Inline(s) && lo <= hi <= |s|
    ensures Inline(Trimmed(s[lo..hi]))
  {
    TrimmedInline(s[lo..hi]);
  }

  lemma ParseInline(p: string)
    requires Piece(p)
    ensures InlineItem(Parse(p))
  {
    hide Trimmed, FindKey;
    var line := Trimmed(p);
    TrimmedInline(p);
    if line != "" && line[0] == '[' {
      var end := IndexOf(line, ']');
      if end < |line| {
        var name := Trimmed(line[1..end]);
        PartInline(line, 1, end);
        if |name| > 8 {
          assert name[8..] == name[8..|name|];
          PartInline(name, 8, |name|);
        }
      }
    } else {
      var eq := IndexOf(line, '=');
      if eq < |line| {
        assert line[eq + 1..] == line[eq + 1..|line|];
        PartInline(line, eq + 1, |line|);
      }
    }
  }

  predicate OneLineCfg(c: Cfg) {
    OneLine(c.globals) && forall i | 0 <= i < |c.networks| :: OneLine(c.networks[i].settings)
  }

  lemma StepOneLine(s: Scanner, item: Item)
    requires OneLineCfg(s.cfg) && InlineItem(item)
    ensures OneLineCfg(Step(s, item).cfg)
  {
    match item {
      case Blank =>
      case Header(name) => DefaultsOneLine(s.cfg.globals);
      case Assign(k, value) =>
        ApplyOneLine(s.cfg.globals, k, value, true);
        if s.cfg.networks != [] {
          ApplyOneLine(s.cfg.networks[|s.cfg.networks| - 1].settings, k, value, false);
        }
    }
  }

  lemma {:induction false} ScanOneLine(c: Cfg, items: seq<Item>, n: nat)
    requires n <= |items| && OneLine(c.globals) && forall i | 0 <= i < |items| :: InlineItem(items[i])
    ensures OneLineCfg(Scan(c, items, n).cfg)
  {
    if n == 0 {
      StartOneLine(c.globals);
    } else {
      ScanOneLine(c, items, n - 1);
      StepOneLine(Scan(c, items, n - 1), items[n - 1]);
    }
  }

  lemma StartOneLine(g: Settings)
    requires OneLine(g)
    ensures OneLine(g.(channels := []))
  {
    forall k: Key | k != Channel
      ensures Get(g.(channels := []), k) == Get(g, k)
    {
    }
  }

  /** A configuration that held no line feed holds none after any file was loaded. */
  lemma LoadedOneLine(c: Cfg, file: string)
    requires OneLine(c.globals)
    ensures OneLineCfg(Load(c, Items(Pieces(file))))
  {
    var pieces := Pieces(file);
    PiecesArePieces(file);
    forall i | 0 <= i < |pieces|
      ensures InlineItem(Items(pieces)[i])
    {
      ParseInline(pieces[i]);
    }
    ScanOneLine(c, Items(pieces), |pieces|);
  }
}
