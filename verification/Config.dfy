// src/config.c: the line-driven loader, what a file means, and when loading it again
// (RELOAD) changes nothing.
module Config {
  import opened Text
  import opened Settings

  const NETWORKS_MAX := 4

  /** One NETWORK section, `struct ambot_config_network`. */
  datatype Network = Network(name: string, settings: Settings)

  datatype Cfg = Cfg(globals: Settings, networks: seq<Network>, skipped: nat)

  // -------------------------------------------------------------- one line

  datatype Item = Blank | Header(name: string) | Assign(key: Key, value: string)

  /** First index from `i` on that holds no white space. */
  function InkFrom(s: string, i: nat): (r: nat)
    requires i <= |s|
    ensures i <= r <= |s| && (r < |s| ==> !IsSpace(s[r]))
    decreases |s| - i
  {
    if i < |s| && IsSpace(s[i]) then InkFrom(s, i + 1) else i
  }

  /** End of the text in `s[lo..hi]` once trailing white space is dropped. */
  function InkUpTo(s: string, lo: nat, hi: nat): (r: nat)
    requires lo <= hi <= |s|
    ensures lo <= r <= hi && (r > lo ==> !IsSpace(s[r - 1]))
  {
    if hi > lo && IsSpace(s[hi - 1]) then InkUpTo(s, lo, hi - 1) else hi
  }

  function Trimmed(s: string): (r: string)
    ensures r != "" ==> !IsSpace(r[0]) && !IsSpace(r[|r| - 1])
  {
    var start := InkFrom(s, 0);
    s[start..InkUpTo(s, start, |s|)]
  }

  method Trim(text: string) returns (r: string)
    ensures r == Trimmed(text)
  {
    var start := 0;
    while start < |text| && IsSpace(text[start])
      invariant start <= |text| && InkFrom(text, 0) == InkFrom(text, start)
    {
      start := start + 1;
    }
    var end := |text|;
    while end > start && IsSpace(text[end - 1])
      invariant start <= end <= |text| && InkUpTo(text, start, |text|) == InkUpTo(text, start, end)
    {
      end := end - 1;
    }
    r := text[start..end];
  }

  /** What one text line says. */
  function Parse(piece: string): Item {
    var line := Trimmed(piece);
    if line == "" || line[0] == '#' || line[0] == ';' then Blank
    else if line[0] == '[' then
      var end := IndexOf(line, ']');
      if end == |line| then Blank
      else
        var name := Trimmed(line[1..end]);
        if |name| > 8 && StartsWith(name, "NETWORK ") then Header(Trimmed(name[8..])) else Blank
    else
      var eq := IndexOf(line, '=');
      if eq == |line| then Blank
      else
        match FindKey(Trimmed(line[..eq]))
        case Some(k) => Assign(k, Trimmed(line[eq + 1..]))
        case None => Blank
  }

  /** What `fgets` with a 320-byte buffer returns one after another. */
  function Pieces(file: string): (r: seq<string>)
    ensures forall p | p in r :: 0 < |p| <= 319
    decreases |file|
  {
    if file == "" then []
    else
      var nl := IndexOf(file, '\n');
      var n := if nl + 1 <= 319 then (if nl < |file| then nl + 1 else nl)
               else if |file| < 319 then |file| else 319;
      [file[..n]] + Pieces(file[n..])
  }

  function Items(pieces: seq<string>): (r: seq<Item>)
    ensures |r| == |pieces|
  {
    seq(|pieces|, i requires 0 <= i < |pieces| => Parse(pieces[i]))
  }

  // ------------------------------------------------------------- the loader

  /** The loader after some items: the configuration, and whether a section is current
      (it is then the last one). */
  datatype Scanner = Scanner(cfg: Cfg, current: bool)

  function Start(c: Cfg): Scanner {
    Scanner(Cfg(c.globals.(channels := []), [], 0), false)
  }

  function Step(s: Scanner, item: Item): (r: Scanner)
    ensures s.current && s.cfg.networks != [] ==> r.current ==> r.cfg.networks != []
  {
    match item
    case Blank => s
    case Header(name) =>
      if |s.cfg.networks| < NETWORKS_MAX then
        var net := Network(Fit(name, NAME_MAX), Defaults(s.cfg.globals));
        Scanner(s.cfg.(networks := s.cfg.networks + [net]), true)
      else Scanner(s.cfg.(skipped := s.cfg.skipped + 1), false)
    case Assign(k, value) =>
      if s.current && s.cfg.networks != [] then
        var last := |s.cfg.networks| - 1;
        var net := s.cfg.networks[last];
        s.(cfg := s.cfg.(networks := s.cfg.networks[last := net.(settings := Apply(net.settings, k, value, false))]))
      else s.(cfg := s.cfg.(globals := Apply(s.cfg.globals, k, value, true)))
  }

  /** The loader after the first `n` items. */
  function Scan(c: Cfg, items: seq<Item>, n: nat): (s: Scanner)
    requires n <= |items|
    ensures s.current ==> s.cfg.networks != []
  {
    if n == 0 then Start(c) else Step(Scan(c, items, n - 1), items[n - 1])
  }

  function Load(c: Cfg, items: seq<Item>): Cfg {
    Scan(c, items, |items|).cfg
  }

  /** `struct ambot_config` and `ambot_config_load`, given the lines of the file. */
  class Configuration {
    var globals: Settings
    var networks: seq<Network>
    var skipped: nat

    ghost function State(): Cfg
      reads this
    {
      Cfg(globals, networks, skipped)
    }

    constructor (seed: Settings)
      ensures State() == Cfg(seed, [], 0)
    {
      globals, networks, skipped := seed, [], 0;
    }

    method LoadLines(pieces: seq<string>)
      modifies this
      ensures State() == Load(old(State()), Items(pieces))
    {
      hide Step, Parse, Trimmed;
      var current := false;
      globals := globals.(channels := []);
      networks, skipped := [], 0;
      ghost var before, items := old(State()), Items(pieces);
      for i := 0 to |pieces|
        invariant Scan(before, items, i) == Scanner(State(), current)
      {
        ghost var s := Scanner(State(), current);
        var item := ReadLine(pieces[i]);
        assert items[i] == item;
        current := Take(item, current);
        assert Scan(before, items, i + 1) == Step(s, item);
      }
    }

    /** The body of the loop: `current` says whether the last section is the current one. */
    method Take(item: Item, current: bool) returns (now: bool)
      requires current ==> networks != []
      modifies this
      ensures Scanner(State(), now) == Step(Scanner(old(State()), current), item)
    {
      now := current;
      match item {
        case Blank =>
        case Header(name) =>
          if |networks| < NETWORKS_MAX {
            networks, now := networks + [Network(Fit(name, NAME_MAX), Defaults(globals))], true;
          } else {
            skipped, now := skipped + 1, false;
          }
        case Assign(key, value) =>
          if current {
            var last := |networks| - 1;
            var net := networks[last];
            networks := networks[last := net.(settings := Apply(net.settings, key, value, false))];
          } else {
            globals := Apply(globals, key, value, true);
          }
      }
    }
  }

  /** Trims a line and finds out what it says. */
  method ReadLine(piece: string) returns (item: Item)
    ensures item == Parse(piece)
  {
    var line := Trim(piece);
    if line == "" || line[0] == '#' || line[0] == ';' {
      return Blank;
    }
    if line[0] == '[' {
      var end := IndexOf(line, ']');
      if end < |line| {
        var name := Trim(line[1..end]);
        if |name| > 8 && StartsWith(name, "NETWORK ") {
          var title := Trim(name[8..]);
          return Header(title);
        }
      }
      return Blank;
    }
    var eq := IndexOf(line, '=');
    if eq == |line| {
      return Blank;
    }
    var value := Trim(line[eq + 1..]);
    var key := Trim(line[..eq]);
    var known := FindKey(key);
    item := if known.Some? then Assign(known.value, value) else Blank;
  }

  // ---------------------------------------------------- what a file means

  datatype Asg = Asg(key: Key, value: string)

  /** How many headers the first `n` items hold. */
  function Headers(items: seq<Item>, n: nat): nat
    requires n <= |items|
  {
    if n == 0 then 0 else Headers(items, n - 1) + if items[n - 1].Header? then 1 else 0
  }

  /** The parts of a file: before the first header, the body of a stored section, and
      everything after the fifth header. */
  datatype Part = Front | Section(index: nat) | Late

  function PartAfter(headers: nat): Part {
    if headers == 0 then Front else if headers <= NETWORKS_MAX then Section(headers - 1) else Late
  }

  /** The assignments of one part among the first `n` items, in order. */
  function Owned(items: seq<Item>, n: nat, part: Part): seq<Asg>
    requires n <= |items|
  {
    if n == 0 then []
    else if items[n - 1].Assign? && PartAfter(Headers(items, n - 1)) == part then
      Owned(items, n - 1, part) + [Asg(items[n - 1].key, items[n - 1].value)]
    else Owned(items, n - 1, part)
  }

  /** The names of the stored sections: the first four headers. */
  function Names(items: seq<Item>, n: nat): seq<string>
    requires n <= |items|
  {
    if n == 0 then []
    else if items[n - 1].Header? && Headers(items, n - 1) < NETWORKS_MAX then
      Names(items, n - 1) + [Fit(items[n - 1].name, NAME_MAX)]
    else Names(items, n - 1)
  }

  function ApplyAll(s: Settings, asgs: seq<Asg>, bot: bool): Settings {
    if asgs == [] then s
    else
      var last := asgs[|asgs| - 1];
      Apply(ApplyAll(s, asgs[..|asgs| - 1], bot), last.key, last.value, bot)
  }

  lemma ApplyMore(s: Settings, asgs: seq<Asg>, a: Asg, bot: bool)
    ensures ApplyAll(s, asgs + [a], bot) == Apply(ApplyAll(s, asgs, bot), a.key, a.value, bot)
  {
    assert (asgs + [a])[..|asgs|] == asgs;
  }

  /** The globals a section inherits from. */
  function FrontGlobals(c: Cfg, items: seq<Item>, n: nat): Settings
    requires n <= |items|
  {
    ApplyAll(c.globals.(channels := []), Owned(items, n, Front), true)
  }

  function SectionMeaning(c: Cfg, items: seq<Item>, n: nat, i: nat): Settings
    requires n <= |items|
  {
    ApplyAll(Defaults(FrontGlobals(c, items, n)), Owned(items, n, Section(i)), false)
  }

  /** A part that has not begun owns nothing. */
  lemma {:induction false} NothingAhead(items: seq<Item>, n: nat, h: nat)
    requires n <= |items| && Headers(items, n) < h <= NETWORKS_MAX + 1
    ensures Owned(items, n, PartAfter(h)) == []
  {
    if n > 0 {
      NothingAhead(items, n - 1, h);
    }
  }

  /** The state after `n` items is their declared meaning: every stored section is the globals
      as they stood before the first header, overridden by the section's own body; what
      follows a fifth header goes to the globals instead. */
  ghost predicate Means(c: Cfg, items: seq<Item>, n: nat, s: Scanner)
    requires n <= |items|
  {
    GlobalsMean(c, items, n, s) && SectionsMean(c, items, n, s.cfg.networks)
  }

  ghost predicate GlobalsMean(c: Cfg, items: seq<Item>, n: nat, s: Scanner)
    requires n <= |items|
  {
    var h := Headers(items, n);
    && s.current == (1 <= h <= NETWORKS_MAX)
    && s.cfg.skipped == (if h > NETWORKS_MAX then h - NETWORKS_MAX else 0)
    && |s.cfg.networks| == (if h > NETWORKS_MAX then NETWORKS_MAX else h)
    && s.cfg.globals
       == ApplyAll(c.globals.(channels := []), Owned(items, n, Front) + Owned(items, n, Late), true)
  }

  ghost predicate SectionsMean(c: Cfg, items: seq<Item>, n: nat, networks: seq<Network>)
    requires n <= |items|
  {
    && |networks| == |Names(items, n)|
    && (forall i | 0 <= i < |networks| ::
          networks[i] == Network(Names(items, n)[i], SectionMeaning(c, items, n, i)))
  }

  lemma {:induction false} LoadMeaning(c: Cfg, items: seq<Item>, n: nat)
    requires n <= |items|
    ensures Means(c, items, n, Scan(c, items, n))
  {
    if n == 0 {
      assert Owned(items, 0, Front) + Owned(items, 0, Late) == [];
    } else {
      LoadMeaning(c, items, n - 1);
      GlobalsStep(c, items, n - 1, Scan(c, items, n - 1));
      SectionsStep(c, items, n - 1, Scan(c, items, n - 1));
    }
  }

  lemma GlobalsStep(c: Cfg, items: seq<Item>, n: nat, s: Scanner)
    requires n < |items| && GlobalsMean(c, items, n, s)
    ensures GlobalsMean(c, items, n + 1, Step(s, items[n]))
  {
    match items[n] {
      case Assign(k, value) =>
        var here := PartAfter(Headers(items, n));
        OwnedByOne(items, n);
        if !here.Section? {
          if here == Front {
            NothingAhead(items, n, 5);
          }
          OneMoreGlobal(c.globals.(channels := []), Owned(items, n, Front), Owned(items, n, Late),
                        Asg(k, value), here == Front);
        }
      case _ =>
        OwnedByNone(items, n, Front);
        OwnedByNone(items, n, Late);
    }
  }

  lemma OwnedByNone(items: seq<Item>, n: nat, part: Part)
    requires n < |items| && (items[n].Assign? ==> PartAfter(Headers(items, n)) != part)
    ensures Owned(items, n + 1, part) == Owned(items, n, part)
  {
  }

  lemma OwnedByOne(items: seq<Item>, n: nat)
    requires n < |items| && items[n].Assign?
    ensures var (here, a) := (PartAfter(Headers(items, n)), Asg(items[n].key, items[n].value));
            && Owned(items, n + 1, Front) == Owned(items, n, Front) + (if here == Front then [a] else [])
            && Owned(items, n + 1, Late) == Owned(items, n, Late) + (if here == Late then [a] else [])
  {
  }

  /** An assignment at the end of the globals' assignments, before any section or after the last. */
  lemma OneMoreGlobal(s: Settings, front: seq<Asg>, late: seq<Asg>, a: Asg, atFront: bool)
    requires atFront ==> late == []
    ensures ApplyAll(s, (if atFront then front + [a] else front) + (if atFront then late else late + [a]), true)
         == Apply(ApplyAll(s, front + late, true), a.key, a.value, true)
  {
    ApplyMore(s, front + late, a, true);
    assert (if atFront then front + [a] else front) + (if atFront then late else late + [a]) == front + late + [a];
  }

  lemma SectionsStep(c: Cfg, items: seq<Item>, n: nat, s: Scanner)
    requires n < |items| && Means(c, items, n, s)
    ensures SectionsMean(c, items, n + 1, Step(s, items[n]).cfg.networks)
  {
    var networks := Step(s, items[n]).cfg.networks;
    forall i | 0 <= i < |networks|
      ensures networks[i] == Network(Names(items, n + 1)[i], SectionMeaning(c, items, n + 1, i))
    {
      if i == |s.cfg.networks| {
        NewSection(c, items, n, s);
      } else {
        OldSection(c, items, n, s, i);
      }
    }
  }

  lemma NewSection(c: Cfg, items: seq<Item>, n: nat, s: Scanner)
    requires n < |items| && Means(c, items, n, s)
    requires items[n].Header? && |s.cfg.networks| < NETWORKS_MAX
    ensures var i := |s.cfg.networks|;
            Step(s, items[n]).cfg.networks[i]
            == Network(Names(items, n + 1)[i], SectionMeaning(c, items, n + 1, i))
  {
    NewMeaning(c, items, n);
    NothingLate(items, n);
  }

  /** Up to the fourth header the globals' assignments are those at the front. */
  lemma NothingLate(items: seq<Item>, n: nat)
    requires n <= |items| && Headers(items, n) <= NETWORKS_MAX
    ensures Owned(items, n, Front) + Owned(items, n, Late) == Owned(items, n, Front)
  {
    NothingAhead(items, n, NETWORKS_MAX + 1);
  }

  lemma NewMeaning(c: Cfg, items: seq<Item>, n: nat)
    requires n < |items| && items[n].Header? && Headers(items, n) < NETWORKS_MAX
    ensures SectionMeaning(c, items, n + 1, Headers(items, n)) == Defaults(FrontGlobals(c, items, n))
  {
    FrontSame(c, items, n);
    EmptySection(items, n);
    ApplyNone(Defaults(FrontGlobals(c, items, n + 1)), Owned(items, n + 1, Section(Headers(items, n))));
  }

  lemma FrontSame(c: Cfg, items: seq<Item>, n: nat)
    requires n < |items| && (items[n].Assign? ==> PartAfter(Headers(items, n)) != Front)
    ensures FrontGlobals(c, items, n + 1) == FrontGlobals(c, items, n)
  {
    OwnedByNone(items, n, Front);
  }

  lemma EmptySection(items: seq<Item>, n: nat)
    requires n < |items| && items[n].Header? && Headers(items, n) < NETWORKS_MAX
    ensures Owned(items, n + 1, Section(Headers(items, n))) == []
  {
    NothingAhead(items, n, Headers(items, n) + 1);
    OwnedByNone(items, n, Section(Headers(items, n)));
  }

  lemma ApplyNone(s: Settings, asgs: seq<Asg>)
    requires asgs == []
    ensures ApplyAll(s, asgs, false) == s
  {
  }

  lemma OldSection(c: Cfg, items: seq<Item>, n: nat, s: Scanner, i: nat)
    requires n < |items| && Means(c, items, n, s) && i < |s.cfg.networks|
    ensures Step(s, items[n]).cfg.networks[i]
         == Network(Names(items, n + 1)[i], SectionMeaning(c, items, n + 1, i))
  {
    hide SectionMeaning, Apply, Defaults, Owned, ApplyAll;
    assert Names(items, n + 1)[i] == Names(items, n)[i];
    OldMeaning(c, items, n, i);
  }

  lemma OldMeaning(c: Cfg, items: seq<Item>, n: nat, i: nat)
    requires n < |items| && i < Headers(items, n)
    ensures SectionMeaning(c, items, n + 1, i)
         == if items[n].Assign? && PartAfter(Headers(items, n)) == Section(i) then
              Apply(SectionMeaning(c, items, n, i), items[n].key, items[n].value, false)
            else SectionMeaning(c, items, n, i)
  {
    FrontSame(c, items, n);
    if items[n].Assign? && PartAfter(Headers(items, n)) == Section(i) {
      ApplyMore(Defaults(FrontGlobals(c, items, n)), Owned(items, n, Section(i)),
                Asg(items[n].key, items[n].value), false);
    } else {
      OwnedByNone(items, n, Section(i));
    }
  }
}
