// What a configuration file means key by key, and exactly when RELOAD of an unchanged
// file changes nothing.
module Reload {
  import opened Text
  import opened Settings
  import opened Config
  import opened Files

  // ------------------------------------------------- the last assignment wins

  predicate Counts(a: Asg, k: Key, bot: bool) {
    a.key == k && (bot || !IsBot(k)) && Stored(k, a.value).Some?
  }

  /** Some assignment in the list really sets key `k`. */
  predicate Sets(asgs: seq<Asg>, k: Key, bot: bool) {
    exists a | a in asgs :: Counts(a, k, bot)
  }

  /** The value the last such assignment stores. */
  function LastSet(asgs: seq<Asg>, k: Key, bot: bool): (r: Option<Value>)
    ensures r.Some? ==> Fits(k, r.value)
    ensures r.Some? && r.value.Str? ==> |r.value.s| <= Max(k)
  {
    if asgs == [] then None
    else
      var init, last := asgs[..|asgs| - 1], asgs[|asgs| - 1];
      if Counts(last, k, bot) then Stored(k, last.value) else LastSet(init, k, bot)
  }

  lemma {:induction false} LastSetSets(asgs: seq<Asg>, k: Key, bot: bool)
    ensures LastSet(asgs, k, bot).Some? <==> Sets(asgs, k, bot)
  {
    if asgs != [] {
      var init, last := asgs[..|asgs| - 1], asgs[|asgs| - 1];
      assert asgs == init + [last] && last in asgs;
      LastSetSets(init, k, bot);
    }
  }

  function Or(o: Option<Value>, v: Value): Value {
    match o case Some(w) => w case None => v
  }

  function ChannelValues(asgs: seq<Asg>): seq<string> {
    if asgs == [] then []
    else
      var last := asgs[|asgs| - 1];
      ChannelValues(asgs[..|asgs| - 1]) + if last.key == Channel then [Fit(last.value, CHANNEL_MAX)] else []
  }

  function FirstChannels(all: seq<string>): seq<string> {
    if |all| <= CHANNELS_MAX then all else all[..CHANNELS_MAX]
  }

  /** Every key holds its last valid assignment, or what it held before. */
  lemma {:induction false} LastWins(s: Settings, asgs: seq<Asg>, k: Key, bot: bool)
    requires k != Channel
    ensures Get(ApplyAll(s, asgs, bot), k) == Or(LastSet(asgs, k, bot), Get(s, k))
  {
    if asgs != [] {
      var init, last := asgs[..|asgs| - 1], asgs[|asgs| - 1];
      LastWins(s, init, k, bot);
      OneAssignment(ApplyAll(s, init, bot), last, k, bot);
    }
  }

  lemma OneAssignment(s: Settings, a: Asg, k: Key, bot: bool)
    requires k != Channel
    ensures Get(Apply(s, a.key, a.value, bot), k)
         == if Counts(a, k, bot) then Stored(k, a.value).value else Get(s, k)
  {
    if a.key != Channel && Stored(a.key, a.value).Some? {
      GetPut(s, a.key, Stored(a.key, a.value).value, k);
    }
  }

  /** The first sixteen channels are kept. */
  lemma {:induction false} FirstWin(s: Settings, asgs: seq<Asg>, bot: bool)
    requires |s.channels| <= CHANNELS_MAX
    ensures ApplyAll(s, asgs, bot).channels == FirstChannels(s.channels + ChannelValues(asgs))
  {
    if asgs == [] {
      assert s.channels + [] == s.channels;
    } else {
      var init, last := asgs[..|asgs| - 1], asgs[|asgs| - 1];
      FirstWin(s, init, bot);
      var before := ApplyAll(s, init, bot);
      assert s.channels + ChannelValues(asgs)
          == s.channels + ChannelValues(init) + if last.key == Channel then [Fit(last.value, CHANNEL_MAX)] else [];
      if last.key != Channel && Stored(last.key, last.value).Some? {
        GetPut(before, last.key, Stored(last.key, last.value).value, Host);
      }
    }
  }

  // ------------------------------------------------------- what a file means

  function Everything(items: seq<Item>, part: Part): seq<Asg> {
    Owned(items, |items|, part)
  }

  /** The assignments that reach the globals. */
  function GlobalAsgs(items: seq<Item>): seq<Asg> {
    Everything(items, Front) + Everything(items, Late)
  }

  function SectionCount(items: seq<Item>): nat {
    |Names(items, |items|)|
  }

  lemma LoadGlobals(c: Cfg, items: seq<Item>, k: Key)
    requires k != Channel
    ensures Get(Load(c, items).globals, k) == Or(LastSet(GlobalAsgs(items), k, true), Get(c.globals, k))
    ensures Load(c, items).globals.channels == FirstChannels(ChannelValues(GlobalAsgs(items)))
  {
    LoadMeaning(c, items, |items|);
    var start := c.globals.(channels := []);
    LastWins(start, GlobalAsgs(items), k, true);
    FirstWin(start, GlobalAsgs(items), true);
    assert [] + ChannelValues(GlobalAsgs(items)) == ChannelValues(GlobalAsgs(items));
    assert Get(start, k) == Get(c.globals, k);
  }

  /** A stored section: its own last valid assignment to a key; failing that, what the
      globals held before the first header if the key is inherited; failing that, the
      zeroed field. */
  lemma LoadSection(c: Cfg, items: seq<Item>, i: nat, k: Key)
    requires k != Channel && i < SectionCount(items)
    ensures |Load(c, items).networks| == SectionCount(items)
    ensures var net := Load(c, items).networks[i];
            && net.name == Names(items, |items|)[i]
            && net.settings.channels == FirstChannels(ChannelValues(Everything(items, Part.Section(i))))
            && Get(net.settings, k)
               == Or(LastSet(Everything(items, Part.Section(i)), k, false),
                     if Inherited(k) then
                       Clipped(k, Or(LastSet(Everything(items, Front), k, true), Get(c.globals, k)))
                     else if k == BotTimeout then Num(0) else Str(""))
  {
    LoadMeaning(c, items, |items|);
    var start, body := c.globals.(channels := []), Everything(items, Part.Section(i));
    var front := FrontGlobals(c, items, |items|);
    LastWins(start, Everything(items, Front), k, true);
    assert Get(start, k) == Get(c.globals, k);
    GetDefaults(front, k);
    LastWins(Defaults(front), body, k, false);
    FirstWin(Defaults(front), body, false);
    assert [] + ChannelValues(body) == ChannelValues(body);
  }

  // -------------------------------------------------------------- RELOAD

  /** Section `i` takes key `k` from the configuration the load started with. */
  predicate Exposed(items: seq<Item>, i: nat, k: Key) {
    Inherited(k) && !Sets(Everything(items, Front), k, true) && !Sets(Everything(items, Part.Section(i)), k, false)
  }

  /** No key set after a fifth header is one that a stored section takes from outside the file. */
  predicate Stable(items: seq<Item>) {
    forall i: nat, k: Key | i < SectionCount(items) && Exposed(items, i, k) ::
      !Sets(Everything(items, Late), k, true)
  }

  /** Every such key that is set late holds that value already in the configuration the load starts
      with. */
  predicate Settles(c: Cfg, items: seq<Item>) {
    forall i: nat, k: Key | i < SectionCount(items) && Exposed(items, i, k) && Sets(Everything(items, Late), k, true) ::
      LastSet(Everything(items, Late), k, true) == Some(Get(c.globals, k))
  }

  lemma {:induction false} LastOfConcat(a: seq<Asg>, b: seq<Asg>, k: Key)
    ensures LastSet(a + b, k, true)
         == if LastSet(b, k, true).Some? then LastSet(b, k, true) else LastSet(a, k, true)
  {
    if b == [] {
      assert a + b == a;
    } else {
      var init, last := b[..|b| - 1], b[|b| - 1];
      assert (a + b)[..|a + b| - 1] == a + init;
      LastOfConcat(a, init, k);
    }
  }

  lemma ReloadGlobals(c: Cfg, items: seq<Item>)
    ensures Load(Load(c, items), items).globals == Load(c, items).globals
  {
    var once := Load(c, items);
    var twice := Load(once, items);
    forall k: Key | k != Channel
      ensures Get(twice.globals, k) == Get(once.globals, k)
    {
      LoadGlobals(c, items, k);
      LoadGlobals(once, items, k);
    }
    LoadGlobals(c, items, Host);
    LoadGlobals(once, items, Host);
    SameSettings(twice.globals, once.globals);
  }

  lemma ReloadKey(c: Cfg, items: seq<Item>, i: nat, k: Key)
    requires Settles(c, items) && i < SectionCount(items) && k != Channel
    ensures |Load(Load(c, items), items).networks| == |Load(c, items).networks| == SectionCount(items)
    ensures Get(Load(Load(c, items), items).networks[i].settings, k) == Get(Load(c, items).networks[i].settings, k)
  {
    var front, late := Everything(items, Front), Everything(items, Late);
    LoadSection(c, items, i, k);
    LoadSection(Load(c, items), items, i, k);
    LoadGlobals(c, items, k);
    LastOfConcat(front, late, k);
    LastSetSets(front, k, true);
    LastSetSets(late, k, true);
    LastSetSets(Everything(items, Part.Section(i)), k, false);
    if Exposed(items, i, k) && Sets(late, k, true) {
      assert LastSet(late, k, true) == Some(Get(c.globals, k));
    }
  }

  lemma ReloadSection(c: Cfg, items: seq<Item>, i: nat)
    requires Settles(c, items) && i < SectionCount(items)
    ensures |Load(Load(c, items), items).networks| == |Load(c, items).networks| == SectionCount(items)
    ensures Load(Load(c, items), items).networks[i] == Load(c, items).networks[i]
  {
    var once := Load(c, items);
    LoadSection(c, items, i, Host);
    LoadSection(once, items, i, Host);
    var a, b := once.networks[i].settings, Load(once, items).networks[i].settings;
    forall k: Key | k != Channel
      ensures Get(a, k) == Get(b, k)
    {
      ReloadKey(c, items, i, k);
    }
    SameSettings(a, b);
  }

  /** What the global part can hold while the program runs: its buffers bound the texts, and
      its numbers are ports. */
  predicate Representable(c: Cfg) {
    Bounded(c.globals) && InRange(c.globals)
  }

  lemma {:induction false} ScanRepresentable(c: Cfg, items: seq<Item>, n: nat)
    requires n <= |items| && Representable(c)
    ensures Representable(Scan(c, items, n).cfg)
  {
    if n == 0 {
      StartRepresentable(c.globals);
    } else {
      ScanRepresentable(c, items, n - 1);
      var g := Scan(c, items, n - 1).cfg.globals;
      match items[n - 1] {
        case Assign(k, value) =>
          ApplyBounded(g, k, value, true);
          ApplyInRange(g, k, value, true);
        case _ =>
      }
    }
  }

  lemma StartRepresentable(g: Settings)
    requires Bounded(g)
    ensures Bounded(g.(channels := []))
  {
    forall k: Key | k != Channel
      ensures Get(g.(channels := []), k) == Get(g, k)
    {
    }
  }

  /** The program starts so, and loading any lines keeps it so. */
  lemma StaysRepresentable(host: string, port: nat, nick: string, user: string, pass: string, owner: string,
                           c: Cfg, items: seq<Item>)
    requires port <= 65535
    ensures Representable(Cfg(Seeded(host, port, nick, user, pass, owner), [], 0))
    ensures Representable(c) ==> Representable(Load(c, items))
  {
    SeededFits(host, port, nick, user, pass, owner);
    if Representable(c) {
      ScanRepresentable(c, items, |items|);
    }
  }

  /** A value for `k` other than `v` that the program can hold. */
  function Other(v: Value): Value {
    match v
    case Str(s) => Str(if s == "" then "a" else "")
    case Num(n) => Num(if n == 1 then 2 else 1)
    case Flag(on) => Flag(!on)
  }

  lemma OtherRepresentable(g: Settings, k: Key, v: Value)
    requires Bounded(g) && InRange(g) && Fits(k, v)
    ensures var h := Put(g, k, Other(v)); Bounded(h) && InRange(h)
  {
    var h := Put(g, k, Other(v));
    forall j: Key | j != Channel && Get(h, j).Str?
      ensures |Get(h, j).s| <= Max(j)
    {
      GetPut(g, k, Other(v), j);
    }
    GetPut(g, k, Other(v), Host);
  }

  /** A load that starts with another value than the file leaves shows it in a section. */
  lemma DifferentLoads(c: Cfg, items: seq<Item>, i: nat, k: Key, v: Value)
    requires i < SectionCount(items) && Exposed(items, i, k)
    requires LastSet(Everything(items, Late), k, true) == Some(v)
    requires Bounded(c.globals) && Get(c.globals, k) != v
    ensures Load(Load(c, items), items) != Load(c, items)
  {
    var once := Load(c, items);
    LastSetSets(Everything(items, Front), k, true);
    LastSetSets(Everything(items, Part.Section(i)), k, false);
    LoadGlobals(c, items, k);
    LastOfConcat(Everything(items, Front), Everything(items, Late), k);
    LoadSection(c, items, i, k);
    LoadSection(once, items, i, k);
    NotClipped(k, Get(c.globals, k), c.globals);
    assert Get(once.networks[i].settings, k) == Get(c.globals, k);
    assert Get(Load(once, items).networks[i].settings, k) == Clipped(k, v) == v;
  }

  lemma NotClipped(k: Key, v: Value, g: Settings)
    requires k != Channel && Bounded(g) && v == Get(g, k)
    ensures Clipped(k, v) == v
  {
  }

  /** Loading the same lines again is a no-op after a load from `c` exactly when `c` already holds
      what the lines after a fifth header set, in every key that a stored section takes from it. */
  lemma ReloadFrom(c: Cfg, items: seq<Item>)
    requires Representable(c)
    ensures Load(Load(c, items), items) == Load(c, items) <==> Settles(c, items)
  {
    if Settles(c, items) {
      ReloadEverything(c, items);
    } else {
      var i: nat, k: Key :| i < SectionCount(items) && Exposed(items, i, k) && Sets(Everything(items, Late), k, true)
                            && LastSet(Everything(items, Late), k, true) != Some(Get(c.globals, k));
      LastSetSets(Everything(items, Late), k, true);
      DifferentLoads(c, items, i, k, LastSet(Everything(items, Late), k, true).value);
    }
  }

  /** An unstable file does not settle from some start that the program can hold. */
  lemma UnstableStart(items: seq<Item>, i: nat, k: Key) returns (c: Cfg)
    requires i < SectionCount(items) && Exposed(items, i, k) && Sets(Everything(items, Late), k, true)
    ensures Representable(c) && !Settles(c, items)
  {
    LastSetSets(Everything(items, Late), k, true);
    var v := LastSet(Everything(items, Late), k, true).value;
    var seed := Seeded("irc", 6667, "bot", "", "", "");
    SeededFits("irc", 6667, "bot", "", "", "");
    OtherRepresentable(seed, k, v);
    c := Cfg(Put(seed, k, Other(v)), [], 0);
    GetPutSame(seed, k, Other(v));
    assert Other(v) != v;
  }

  /** Loading the same lines again is a no-op, from every configuration the program can hold,
      exactly when the file is stable. */
  lemma ReloadIsNoOp(items: seq<Item>)
    ensures Stable(items) <==> forall c: Cfg | Representable(c) :: Load(Load(c, items), items) == Load(c, items)
  {
    hide Load, Exposed, Representable;
    if Stable(items) {
      forall c: Cfg | Representable(c)
        ensures Load(Load(c, items), items) == Load(c, items)
      {
        ReloadFrom(c, items);
      }
    } else {
      var i: nat, k: Key :| i < SectionCount(items) && Exposed(items, i, k) && Sets(Everything(items, Late), k, true);
      var c := UnstableStart(items, i, k);
      ReloadFrom(c, items);
    }
  }

  lemma ReloadEverything(c: Cfg, items: seq<Item>)
    requires Settles(c, items)
    ensures Load(Load(c, items), items) == Load(c, items)
  {
    var once := Load(c, items);
    ReloadGlobals(c, items);
    LoadMeaning(c, items, |items|);
    LoadMeaning(once, items, |items|);
    var twice := Load(once, items);
    forall i | 0 <= i < SectionCount(items)
      ensures twice.networks[i] == once.networks[i]
    {
      ReloadSection(c, items, i);
    }
    assert twice.networks == once.networks;
  }

  /** In particular every file with at most four NETWORK sections is stable. */
  lemma FourSectionsAreStable(items: seq<Item>)
    requires Headers(items, |items|) <= NETWORKS_MAX
    ensures Stable(items)
  {
    NothingAhead(items, |items|, NETWORKS_MAX + 1);
  }

  /** A file that is not: five sections `[NETWORK a]` to `[NETWORK e]`, and `NICK=x` in the fifth. */
  const FIVE_SECTIONS :=
    [Opens("a"), Opens("b"), Opens("c"), Opens("d"), Opens("e"), Setting("", "NICK", "", "", "x", "")]

  function Opens(name: string): Entry {
    Entry.Section("", "", name, "")
  }

  const LEAKING := [Header("a"), Header("b"), Header("c"), Header("d"), Header("e"), Assign(Nick, "x")]

  lemma OpensProper(name: string)
    requires name != "" && |name| <= 31 && Bare(name) && ']' !in name && Inline(name)
    ensures Proper(Opens(name)) && Says(Opens(name)) == Header(name)
  {
    assert Show(Opens(name)) == "[NETWORK " + name + "]\n";
  }

  lemma NickKey()
    ensures FindKey("NICK") == Some(Nick)
  {
    assert Upper("NICK")[0] == 'N' && Upper("HOST")[0] == 'H' && Upper("PORT")[0] == 'P';
    assert KeyEqual("NICK", "NICK");
  }

  lemma NickProper()
    ensures var e := Setting("", "NICK", "", "", "x", ""); Proper(e) && Says(e) == Assign(Nick, "x")
  {
    NickKey();
    assert Show(Setting("", "NICK", "", "", "x", "")) == "NICK=x\n";
  }

  lemma FiveSectionsParse()
    ensures Items(Pieces(ShowAll(FIVE_SECTIONS))) == LEAKING
  {
    var entries := FIVE_SECTIONS;
    forall i | 0 <= i < |entries|
      ensures Proper(entries[i]) && Says(entries[i]) == LEAKING[i]
    {
      if i == 0 {
        OpensProper("a");
      } else if i == 1 {
        OpensProper("b");
      } else if i == 2 {
        OpensProper("c");
      } else if i == 3 {
        OpensProper("d");
      } else if i == 4 {
        OpensProper("e");
      } else {
        NickProper();
      }
    }
    SaidItems(entries, LEAKING);
  }

  lemma SaidItems(entries: seq<Entry>, items: seq<Item>)
    requires |entries| == |items| && forall i | 0 <= i < |items| :: Proper(entries[i]) && Says(entries[i]) == items[i]
    ensures Items(Pieces(ShowAll(entries))) == items
  {
    FileParses(entries);
    assert AllSay(entries) == items;
  }

  /** The first network's nick after the first load, and after loading the same lines again. */
  predicate NickChanges(items: seq<Item>, c: Cfg, first: string, second: string) {
    var once := Load(c, items);
    var twice := Load(once, items);
    once.networks != [] && once.networks[0].settings.nick == first
    && twice.networks != [] && twice.networks[0].settings.nick == second
  }

  /** Started with the nick `bot`, the bot uses it on the first network; after RELOAD it is `x`. */
  lemma FifthSectionLeaks()
    ensures var items, c := Items(Pieces(ShowAll(FIVE_SECTIONS))), Cfg(Seeded("irc", 6667, "bot", "", "", ""), [], 0);
            !Stable(items) && Representable(c) && NickChanges(items, c, "bot", "x")
  {
    FiveSectionsParse();
    SeededFits("irc", 6667, "bot", "", "", "");
    LeakingItems(Cfg(Seeded("irc", 6667, "bot", "", "", ""), [], 0));
  }

  lemma LeakingParts()
    ensures SectionCount(LEAKING) == 4
    ensures Everything(LEAKING, Front) == [] && Everything(LEAKING, Part.Section(0)) == []
    ensures Everything(LEAKING, Late) == [Asg(Nick, "x")]
  {
    var items := LEAKING;
    assert Headers(items, 1) == 1 && Headers(items, 2) == 2 && Headers(items, 3) == 3;
    assert Headers(items, 4) == 4 && Headers(items, 5) == 5;
    assert Owned(items, 5, Front) == Owned(items, 3, Front) == Owned(items, 1, Front) == [];
    assert Owned(items, 5, Part.Section(0)) == Owned(items, 3, Part.Section(0));
    assert Owned(items, 3, Part.Section(0)) == Owned(items, 1, Part.Section(0)) == [];
    assert Owned(items, 5, Late) == Owned(items, 3, Late) == Owned(items, 1, Late) == [];
    assert |Names(items, 5)| == |Names(items, 3)| + 1 == |Names(items, 1)| + 3;
  }

  lemma LeakingItems(c: Cfg)
    requires c.globals.nick == "bot"
    ensures !Stable(LEAKING) && NickChanges(LEAKING, c, "bot", "x")
  {
    LeakingParts();
    var late := [Asg(Nick, "x")];
    assert Counts(late[0], Nick, true);
    assert GlobalAsgs(LEAKING) == late;
    assert LastSet(late, Nick, true) == Some(Str("x"));
    assert Exposed(LEAKING, 0, Nick) && Sets(late, Nick, true);
    LoadSection(c, LEAKING, 0, Nick);
    LoadGlobals(c, LEAKING, Nick);
    LoadSection(Load(c, LEAKING), LEAKING, 0, Nick);
  }
}
