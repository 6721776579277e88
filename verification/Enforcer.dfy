/** The verdict of the kernel hook over the maps, and the maps that the loader builds for it. */
module Enforcer {
  import opened Bits
  import opened Options
  import opened LittleEndian
  import opened VmaTrie

  const FLAG_CHECK_NR: nat := 0x1_0000_0000
  const MODULE_MAIN: nat := 1
  const MODULE_LIBC: nat := 2

  function U64(x: int): (r: nat)
    ensures r < TWO64
  {
    x % TWO64
  }

  datatype Range = Range(start: nat, end: nat)
  type Policy = map<nat, nat>

  datatype Maps = Maps(targets: set<nat>, cgroups: set<nat>, fallback: set<nat>, vma: Trie,
                       registry: map<nat, Policy>, cfi: map<nat, Range>)

  datatype Mode = Kill | Permissive | Term
  datatype Config = Config(systemWide: bool, cgroupFilter: bool, audit: bool, mode: Mode)

  /** A system call as the hook sees it: instruction pointer behind the call if registers are there, and the
      caller's return address if the stack walk found two frames. */
  datatype Call = Call(tgid: nat, cgroup: nat, rip: Option<nat>, nr: nat, caller: Option<nat>)

  datatype Action = Allowed | Blocked | CfiOk | CfiFail | NrMismatch
  datatype Event = Event(site: nat, offset: nat, moduleId: nat, nr: nat, action: Action)

  /** What the hook does: events for the ring buffer, and a signal. */
  datatype Outcome = Outcome(events: seq<Event>, signal: Option<nat>)

  const SILENT := Outcome([], None)

  /** deny_action. */
  function Deny(cfg: Config, e: Event): Outcome {
    Outcome([e], match cfg.mode case Term => Some(15) case Kill => Some(9) case Permissive => None)
  }

  function Audit(cfg: Config, e: Event): Outcome {
    if cfg.audit then Outcome([e], None) else SILENT
  }

  /** The last steps of sentinel_check, once the module is known. */
  function CheckSite(m: Maps, cfg: Config, c: Call, site: nat, mod: VmaValue): Outcome {
    var offset := U64(site - mod.base);
    var ev := (a: Action) => Event(site, offset, mod.moduleId, c.nr, a);
    if mod.moduleId !in m.registry || offset !in m.registry[mod.moduleId] then Deny(cfg, ev(Blocked))
    else
      var val := m.registry[mod.moduleId][offset];
      if val / FLAG_CHECK_NR % 2 == 1 && val % FLAG_CHECK_NR != c.nr then Deny(cfg, ev(NrMismatch))
      else if offset in m.cfi then
        if c.caller.Some?
           && m.cfi[offset].start <= U64(c.caller.value - mod.base) <= m.cfi[offset].end
        then Audit(cfg, ev(CfiOk))
        else Deny(cfg, ev(CfiFail))
      else Audit(cfg, ev(Allowed))
  }

  /** sentinel_check. */
  function Check(m: Maps, cfg: Config, c: Call): Outcome {
    if c.tgid !in m.targets then
      if !cfg.systemWide || c.nr in m.fallback then SILENT else Deny(cfg, Event(0, 0, 0, c.nr, Blocked))
    else if cfg.cgroupFilter && c.cgroup !in m.cgroups then SILENT
    else if c.rip.None? then Deny(cfg, Event(0, 0, 0, c.nr, Blocked))
    else
      var site := U64(c.rip.value - 2);
      match Resolve(m.vma, site)
      case None => Deny(cfg, Event(site, 0, 0, c.nr, Blocked))
      case Some(mod) => CheckSite(m, cfg, c, site, mod)
  }

  predicate IsDenial(a: Action) {
    a == Blocked || a == CfiFail || a == NrMismatch
  }

  predicate Denied(o: Outcome) {
    o.events != [] && IsDenial(o.events[0].action)
  }

  /** Every call leaves at most one event; a denial leaves exactly one, and a signal unless permissive; what is
      not denied gets no signal, and no event unless auditing. */
  lemma {:induction false} OutcomeShape(m: Maps, cfg: Config, c: Call)
    ensures var o := Check(m, cfg, c);
      && |o.events| <= 1
      && (Denied(o) ==> |o.events| == 1 && (o.signal.Some? <==> cfg.mode != Permissive))
      && (!Denied(o) ==> o.signal == None && (!cfg.audit ==> o == SILENT))
  {
    hide Resolve;
  }

  // --- Policies as the loader writes them ---

  /** A policy entry as parsed: address in the ELF file and number, negative for any. */
  datatype Rule = Rule(vaddr: nat, nr: int)

  /** The encoding of the number in a policy value. */
  function RuleValue(nr: int): nat {
    if nr >= 0 then FLAG_CHECK_NR + nr % TWO32 else 1
  }

  lemma {:induction false} RuleValueDecodes(nr: int, asked: nat)
    ensures (RuleValue(nr) / FLAG_CHECK_NR % 2 == 1 && RuleValue(nr) % FLAG_CHECK_NR != asked) <==>
      (nr >= 0 && nr % TWO32 != asked)
  {
  }

  function RuleKey(r: Rule, loadBase: nat): nat {
    U64(r.vaddr - loadBase)
  }

  /** The map after writing the rules in order over p; a later rule for the same offset wins. */
  function WriteRules(p: Policy, rules: seq<Rule>, loadBase: nat): Policy {
    if rules == [] then p
    else
      var r := rules[|rules| - 1];
      WriteRules(p, rules[..|rules| - 1], loadBase)[RuleKey(r, loadBase) := RuleValue(r.nr)]
  }

  /** The population loop for the main binary; the hot-reload loop is the same over the map already there. */
  method LoadRules(p: Policy, rules: seq<Rule>, loadBase: nat) returns (p': Policy, loaded: nat)
    ensures p' == WriteRules(p, rules, loadBase) && loaded == |rules|
  {
    p', loaded := p, 0;
    for i := 0 to |rules|
      invariant p' == WriteRules(p, rules[..i], loadBase) && loaded == i
    {
      assert rules[..i + 1][..i] == rules[..i];
      var offset := U64(rules[i].vaddr - loadBase);
      var nr := rules[i].nr;
      var val := 1;
      if nr >= 0 {
        val := FLAG_CHECK_NR + nr % TWO32;
      }
      p' := p'[offset := val];
      loaded := loaded + 1;
    }
    assert rules[..|rules|] == rules;
  }

  /** The rule that decides about an offset: the last one for it. */
  function Deciding(rules: seq<Rule>, loadBase: nat, key: nat): Option<int> {
    if rules == [] then None
    else
      var r := rules[|rules| - 1];
      if RuleKey(r, loadBase) == key then Some(r.nr) else Deciding(rules[..|rules| - 1], loadBase, key)
  }

  lemma {:induction false} WrittenRules(p: Policy, rules: seq<Rule>, loadBase: nat, key: nat)
    ensures var q := WriteRules(p, rules, loadBase); var d := Deciding(rules, loadBase, key);
      && (key in q <==> key in p || d.Some?)
      && (d.Some? ==> q[key] == RuleValue(d.value))
      && (d.None? && key in p ==> q[key] == p[key])
  {
    if rules != [] {
      WrittenRules(p, rules[..|rules| - 1], loadBase, key);
    }
  }

  // --- Caller ranges ---

  /** A site that may only be reached from one function. */
  datatype CfiEntry = CfiEntry(site: nat, func: nat, size: nat)

  function CfiRange(e: CfiEntry, loadBase: nat): Range {
    var start := U64(e.func - loadBase);
    Range(start, U64(start + if e.size == 0 then 4096 else e.size))
  }

  function WriteRanges(c: map<nat, Range>, es: seq<CfiEntry>, loadBase: nat): map<nat, Range> {
    if es == [] then c
    else
      var e := es[|es| - 1];
      WriteRanges(c, es[..|es| - 1], loadBase)[U64(e.site - loadBase) := CfiRange(e, loadBase)]
  }

  /** The population loop of the caller ranges. */
  method LoadRanges(c: map<nat, Range>, es: seq<CfiEntry>, loadBase: nat) returns (c': map<nat, Range>)
    ensures c' == WriteRanges(c, es, loadBase)
  {
    c' := c;
    for i := 0 to |es|
      invariant c' == WriteRanges(c, es[..i], loadBase)
    {
      assert es[..i + 1][..i] == es[..i];
      var siteOffset, funcOffset := U64(es[i].site - loadBase), U64(es[i].func - loadBase);
      var funcSize := es[i].size;
      if funcSize == 0 {
        funcSize := 4096;
      }
      c' := c'[siteOffset := Range(funcOffset, U64(funcOffset + funcSize))];
    }
    assert es[..|es|] == es;
  }

  /** The range that applies to an offset: the last one written. */
  function RangeFor(es: seq<CfiEntry>, loadBase: nat, key: nat): Option<Range> {
    if es == [] then None
    else
      var e := es[|es| - 1];
      if U64(e.site - loadBase) == key then Some(CfiRange(e, loadBase)) else RangeFor(es[..|es| - 1], loadBase, key)
  }

  lemma {:induction false} WrittenRanges(es: seq<CfiEntry>, loadBase: nat, key: nat)
    ensures var c := WriteRanges(map[], es, loadBase); var r := RangeFor(es, loadBase, key);
      (key in c <==> r.Some?) && (r.Some? ==> c[key] == r.value)
  {
    if es != [] {
      WrittenRanges(es[..|es| - 1], loadBase, key);
    }
  }

  // --- Verdicts ---

  /** A process that the hook enforces on, with registers. */
  predicate InScope(m: Maps, cfg: Config, c: Call) {
    c.tgid in m.targets && (cfg.cgroupFilter ==> c.cgroup in m.cgroups) && c.rip.Some?
  }

  /** The number agrees with the one required, or any is allowed. */
  predicate NrAgrees(required: int, asked: nat) {
    required < 0 || required % TWO32 == asked
  }

  predicate CallerAgrees(r: Option<Range>, caller: Option<nat>) {
    r.Some? ==> caller.Some? && r.value.start <= caller.value <= r.value.end
  }

  /** For a call in scope from a resolved site: no denial exactly when the module's policy has the offset, the
      value allows the number, and a range at that offset contains the caller. */
  lemma {:induction false} SiteVerdict(m: Maps, cfg: Config, c: Call, mod: VmaValue)
    requires InScope(m, cfg, c) && Resolve(m.vma, U64(c.rip.value - 2)) == Some(mod)
    ensures var offset := U64(U64(c.rip.value - 2) - mod.base);
      !Denied(Check(m, cfg, c)) <==>
        && mod.moduleId in m.registry && offset in m.registry[mod.moduleId]
        && (var val := m.registry[mod.moduleId][offset]; val / FLAG_CHECK_NR % 2 == 1 ==> val % FLAG_CHECK_NR == c.nr)
        && (offset in m.cfi ==>
              c.caller.Some? && m.cfi[offset].start <= U64(c.caller.value - mod.base) <= m.cfi[offset].end)
  {
    hide Resolve, U64;
  }

  /** Whatever modules are loaded, every call in scope from outside their blocks is denied. */
  lemma {:induction false} OutsideDenied(m: Maps, cfg: Config, ms: seq<Module>, c: Call)
    requires (forall k :: 0 <= k < |ms| ==> ModuleOk(ms[k])) && m.vma == LoadAll(map[], ms) && InScope(m, cfg, c)
    requires forall k :: 0 <= k < |ms| ==> !InBlocks(ms[k], U64(c.rip.value - 2) / BLOCK)
    ensures Denied(Check(m, cfg, c))
  {
    hide Resolve, U64, LoadAll, InBlocks;
    NothingElseResolves(ms, U64(c.rip.value - 2));
  }

  /** Subtraction modulo 2^64 undoes relocation, wherever the module lies. */
  lemma {:induction false} Relocated(base: nat, v: nat, loadBase: nat)
    ensures U64(U64(base + v - loadBase) - base) == U64(v - loadBase)
  {
    var x := base + v - loadBase;
    DivModParts(x, TWO64);
    DivModParts(v - loadBase, TWO64);
    ModUnique(U64(x) - base, TWO64, (v - loadBase) / TWO64 - x / TWO64, (v - loadBase) % TWO64);
  }

  lemma {:induction false} BehindCall(site: nat)
    requires site < TWO64
    ensures U64(U64(site + 2) - 2) == site
  {
  }

  /** The maps hold the main binary's policy and ranges as the loader wrote them. */
  ghost predicate MainLoaded(m: Maps, rules: seq<Rule>, es: seq<CfiEntry>, loadBase: nat) {
    && MODULE_MAIN in m.registry && m.registry[MODULE_MAIN] == WriteRules(map[], rules, loadBase)
    && m.cfi == WriteRanges(map[], es, loadBase)
  }

  /** What the policy says about a call from ELF address v with the caller at ELF address cv. */
  predicate Permitted(rules: seq<Rule>, es: seq<CfiEntry>, loadBase: nat, v: nat, nr: nat, cv: Option<nat>) {
    var key := U64(v - loadBase);
    var d := Deciding(rules, loadBase, key);
    && d.Some? && NrAgrees(d.value, nr)
    && CallerAgrees(RangeFor(es, loadBase, key), if cv.Some? then Some(U64(cv.value - loadBase)) else None)
  }

  /** A call made at ELF address v of the main binary, mapped at base. */
  function MainCall(tgid: nat, cgroup: nat, base: nat, loadBase: nat, v: nat, nr: nat, cv: Option<nat>): Call {
    Call(tgid, cgroup, Some(U64(U64(base + v - loadBase) + 2)), nr,
         if cv.Some? then Some(U64(base + cv.value - loadBase)) else None)
  }

  /** The verdict is a function of ELF addresses, number and caller; the base does not matter. */
  lemma {:induction false} MainVerdict(m: Maps, cfg: Config, rules: seq<Rule>, es: seq<CfiEntry>, tgid: nat,
                                       cgroup: nat, base: nat, loadBase: nat, v: nat, nr: nat, cv: Option<nat>)
    requires MainLoaded(m, rules, es, loadBase) && InScope(m, cfg, MainCall(tgid, cgroup, base, loadBase, v, nr, cv))
    requires Resolve(m.vma, U64(base + v - loadBase)) == Some(VmaValue(MODULE_MAIN, base))
    ensures !Denied(Check(m, cfg, MainCall(tgid, cgroup, base, loadBase, v, nr, cv)))
      <==> Permitted(rules, es, loadBase, v, nr, cv)
  {
    hide Resolve, U64, Check, Denied, WriteRules, WriteRanges, Deciding, RangeFor, RuleValue;
    var c, key := MainCall(tgid, cgroup, base, loadBase, v, nr, cv), U64(v - loadBase);
    BehindCall(U64(base + v - loadBase));
    SiteVerdict(m, cfg, c, VmaValue(MODULE_MAIN, base));
    Relocated(base, v, loadBase);
    if cv.Some? {
      Relocated(base, cv.value, loadBase);
    }
    WrittenRules(map[], rules, loadBase, key);
    WrittenRanges(es, loadBase, key);
    var d := Deciding(rules, loadBase, key);
    if d.Some? {
      RuleValueDecodes(d.value, nr);
    }
  }

  /** Two runs with different bases give the same verdict. */
  lemma {:induction false} BaseIndependent(m: Maps, m': Maps, cfg: Config, rules: seq<Rule>, es: seq<CfiEntry>,
                                           tgid: nat, cgroup: nat, base: nat, base': nat, loadBase: nat, v: nat,
                                           nr: nat, cv: Option<nat>)
    requires MainLoaded(m, rules, es, loadBase) && InScope(m, cfg, MainCall(tgid, cgroup, base, loadBase, v, nr, cv))
    requires MainLoaded(m', rules, es, loadBase) && InScope(m', cfg, MainCall(tgid, cgroup, base', loadBase, v, nr, cv))
    requires Resolve(m.vma, U64(base + v - loadBase)) == Some(VmaValue(MODULE_MAIN, base))
    requires Resolve(m'.vma, U64(base' + v - loadBase)) == Some(VmaValue(MODULE_MAIN, base'))
    ensures Denied(Check(m, cfg, MainCall(tgid, cgroup, base, loadBase, v, nr, cv)))
         == Denied(Check(m', cfg, MainCall(tgid, cgroup, base', loadBase, v, nr, cv)))
  {
    hide Resolve, U64, Check, Denied, Permitted, MainLoaded, InScope;
    MainVerdict(m, cfg, rules, es, tgid, cgroup, base, loadBase, v, nr, cv);
    MainVerdict(m', cfg, rules, es, tgid, cgroup, base', loadBase, v, nr, cv);
  }

  /** Composition with address resolution: for modules in separate blocks, of which one is the main binary,
      every call from its hull gets the verdict that its policy gives. */
  lemma {:induction false} LoadedMainVerdict(m: Maps, cfg: Config, ms: seq<Module>, i: nat, rules: seq<Rule>,
                                             es: seq<CfiEntry>, tgid: nat, cgroup: nat, loadBase: nat, v: nat, nr: nat,
                                             cv: Option<nat>)
    requires (forall k :: 0 <= k < |ms| ==> ModuleOk(ms[k])) && BlocksApart(ms) && m.vma == LoadAll(map[], ms)
    requires i < |ms| && ms[i].value == VmaValue(MODULE_MAIN, ms[i].lo)
    requires ms[i].lo <= U64(ms[i].lo + v - loadBase) < ms[i].hi
    requires MainLoaded(m, rules, es, loadBase)
    requires InScope(m, cfg, MainCall(tgid, cgroup, ms[i].lo, loadBase, v, nr, cv))
    ensures !Denied(Check(m, cfg, MainCall(tgid, cgroup, ms[i].lo, loadBase, v, nr, cv)))
      <==> Permitted(rules, es, loadBase, v, nr, cv)
  {
    hide Resolve, U64, Check, Denied, Permitted, MainLoaded, InScope, LoadAll, BlocksApart;
    ModulesResolve(ms, i, U64(ms[i].lo + v - loadBase));
    MainVerdict(m, cfg, rules, es, tgid, cgroup, ms[i].lo, loadBase, v, nr, cv);
  }

  // --- Hot reload ---

  /** A reload overrides the rules for the offsets it mentions, extends the policy by new ones, and leaves all
      others as they were; no offset is ever dropped. */
  lemma {:induction false} HotReload(p: Policy, rules: seq<Rule>, loadBase: nat, key: nat)
    ensures var q := WriteRules(p, rules, loadBase); var d := Deciding(rules, loadBase, key);
      && p.Keys <= q.Keys
      && (d.None? ==> (key in q <==> key in p) && (key in p ==> q[key] == p[key]))
      && (d.Some? ==> key in q && forall asked: nat ::
            (q[key] / FLAG_CHECK_NR % 2 == 1 && q[key] % FLAG_CHECK_NR != asked) <==> !NrAgrees(d.value, asked))
  {
    hide WriteRules, Deciding, RuleValue, NrAgrees;
    forall k | k in p
      ensures k in WriteRules(p, rules, loadBase)
    {
      WrittenRules(p, rules, loadBase, k);
    }
    WrittenRules(p, rules, loadBase, key);
    var d := Deciding(rules, loadBase, key);
    if d.Some? {
      var val := RuleValue(d.value);
      forall asked: nat
        ensures (val / FLAG_CHECK_NR % 2 == 1 && val % FLAG_CHECK_NR != asked) <==> !NrAgrees(d.value, asked)
      {
        RuleValueDecodes(d.value, asked);
        NrAgreesIs(d.value, asked);
      }
    }
  }

  lemma {:induction false} NrAgreesIs(required: int, asked: nat)
    ensures NrAgrees(required, asked) <==> !(required >= 0 && required % TWO32 != asked)
  {
  }

  lemma {:induction false} WriteConcat(p: Policy, a: seq<Rule>, b: seq<Rule>, loadBase: nat)
    ensures WriteRules(p, a + b, loadBase) == WriteRules(WriteRules(p, a, loadBase), b, loadBase)
  {
    if b == [] {
      assert a + b == a;
    } else {
      var k := |b| - 1;
      assert (a + b)[..|a + b| - 1] == a + b[..k];
      WriteConcat(p, a, b[..k], loadBase);
    }
  }

  /** One load or reload: the rules parsed, and the load base parsed with them. */
  datatype Load = Load(rules: seq<Rule>, base: nat)

  /** The rules with offsets instead of addresses. */
  function Rebased(rules: seq<Rule>, base: nat): seq<Rule> {
    seq(|rules|, i requires 0 <= i < |rules| => Rule(RuleKey(rules[i], base), rules[i].nr))
  }

  lemma {:induction false} WriteRebased(p: Policy, rules: seq<Rule>, base: nat)
    ensures WriteRules(p, Rebased(rules, base), 0) == WriteRules(p, rules, base)
  {
    if rules != [] {
      var k := |rules| - 1;
      assert Rebased(rules, base)[..k] == Rebased(rules[..k], base);
      WriteRebased(p, rules[..k], base);
    }
  }

  function Joined(loads: seq<Load>): seq<Rule> {
    if loads == [] then []
    else Joined(loads[..|loads| - 1]) + Rebased(loads[|loads| - 1].rules, loads[|loads| - 1].base)
  }

  /** The policy after the initial load and any number of reloads. */
  function AfterReloads(loads: seq<Load>): Policy {
    if loads == [] then map[]
    else WriteRules(AfterReloads(loads[..|loads| - 1]), loads[|loads| - 1].rules, loads[|loads| - 1].base)
  }

  /** Any number of reloads, each with its own load base, amounts to one load of all the rules in order. */
  lemma {:induction false} ReloadsJoin(loads: seq<Load>)
    ensures AfterReloads(loads) == WriteRules(map[], Joined(loads), 0)
  {
    hide Rebased;
    if loads != [] {
      var k := |loads| - 1;
      ReloadsJoin(loads[..k]);
      WriteConcat(map[], Joined(loads[..k]), Rebased(loads[k].rules, loads[k].base), 0);
      WriteRebased(WriteRules(map[], Joined(loads[..k]), 0), loads[k].rules, loads[k].base);
    }
  }

  // --- libc and the dynamic linker ---

  /** Writes wildcards for keys that are not there yet. */
  function WriteMissing(p: Policy, keys: seq<nat>): Policy {
    if keys == [] then p
    else
      var q, k := WriteMissing(p, keys[..|keys| - 1]), keys[|keys| - 1];
      if k in q then q else q[k := 1]
  }

  method AddMissing(p: Policy, keys: seq<nat>) returns (p': Policy, added: nat)
    ensures p' == WriteMissing(p, keys) && |p'| == |p| + added
  {
    p', added := p, 0;
    for i := 0 to |keys|
      invariant p' == WriteMissing(p, keys[..i]) && |p'| == |p| + added
    {
      assert keys[..i + 1][..i] == keys[..i];
      if keys[i] !in p' {
        assert p'[keys[i] := 1].Keys == p'.Keys + {keys[i]};
        assert |p'[keys[i] := 1].Keys| == |p'.Keys| + 1;
        p' := p'[keys[i] := 1];
        added := added + 1;
      }
    }
    assert keys[..|keys|] == keys;
  }

  lemma {:induction false} WrittenMissing(p: Policy, keys: seq<nat>, key: nat)
    ensures var q := WriteMissing(p, keys);
      && (key in q <==> key in p || key in keys)
      && (key in p ==> q[key] == p[key])
      && (key !in p && key in keys ==> q[key] == 1)
  {
    if keys != [] {
      WrittenMissing(p, keys[..|keys| - 1], key);
      assert keys == keys[..|keys| - 1] + [keys[|keys| - 1]];
    }
  }

  /** The dynamic linker's sites as offsets from libc. */
  function LdKeys(sites: seq<nat>, ldBase: nat, libcBase: nat): (ks: seq<nat>)
    ensures |ks| == |sites| && forall i :: 0 <= i < |ks| ==> ks[i] == U64(U64(ldBase + sites[i]) - libcBase)
  {
    seq(|sites|, i requires 0 <= i < |sites| => U64(U64(ldBase + sites[i]) - libcBase))
  }
}
