/**
 internal/enginepkg/provider.go: the active WAF and the metadata shown beside it, in two pointers. `AtomicProvider` is
 the object as its single swapper uses it; below it the same stores as separate steps, for readers that load the
 pointers at any moment in between.
 */
module Provider {
  import opened Text
  import opened Compiler

  /** A WAF is the rule text it was built from. */
  datatype Waf = Waf(seclang: string)

  datatype ProviderState = ProviderState(
    sha256: string, ruleSetName: string, ruleCount: int, reloadedAt: int, lastError: string, lastErrorAt: int)

  class AtomicProvider {
    var waf: Waf
    var state: ProviderState

    /** A new provider knows the digest of its rules but starts with a rule count of zero. */
    constructor (initial: Waf, sha: string, now: int)
      ensures waf == initial && state == ProviderState(sha, "", 0, now, "", 0)
    {
      waf := initial;
      state := ProviderState(sha, "", 0, now, "", 0);
    }

    /** Text that parses replaces both pointers and clears the last error; text that does not changes only the error. */
    method Swap(ruleSetName: string, sha: string, seclang: string, parses: string -> bool, parseError: string, now: int)
      returns (ok: bool)
      modifies this
      ensures ok == parses(seclang)
      ensures ok ==>
                && waf == Waf(seclang)
                && state == ProviderState(sha, ruleSetName, DirectiveCount(Lines(seclang)), now, "", 0)
      ensures !ok ==>
                && waf == old(waf)
                && state == old(state).(lastError := "parse failed: " + parseError, lastErrorAt := now)
    {
      if !parses(seclang) {
        var prev := state;
        state := ProviderState(prev.sha256, prev.ruleSetName, prev.ruleCount, prev.reloadedAt,
                               "parse failed: " + parseError, now);
        return false;
      }
      var ruleCount := CountRules(seclang);
      waf := Waf(seclang);
      state := ProviderState(sha, ruleSetName, ruleCount, now, "", 0);
      return true;
    }
  }

  // ----- The two stores, seen by concurrent readers -----

  /** One successful swap: what it makes active. Swap 0 is the initial content. */
  datatype Content = Content(seclang: string, sha256: string)

  /** The pointers with the index of the swap each comes from; `mid` between the two stores of a swap. */
  datatype Pointers = Pointers(waf: string, wafIndex: nat, sha256: string, stateIndex: nat, mid: bool)

  /** `swaps` is the history of contents, the current swap included from its first store on. */
  datatype Machine = Machine(at: Pointers, swaps: seq<Content>)

  /** A failed swap stores a state with the digest it had. */
  datatype Store = StoreWaf(content: Content) | StoreState | StoreError

  predicate CanStore(m: Machine, s: Store) {
    match s
    case StoreWaf(_) => !m.at.mid
    case StoreState => m.at.mid && m.at.wafIndex < |m.swaps|
    case StoreError => !m.at.mid
  }

  function AfterStore(m: Machine, s: Store): Machine
    requires CanStore(m, s)
  {
    match s
    case StoreWaf(c) => Machine(m.at.(waf := c.seclang, wafIndex := |m.swaps|, mid := true), m.swaps + [c])
    case StoreState =>
      m.(at := m.at.(sha256 := m.swaps[m.at.wafIndex].sha256, stateIndex := m.at.wafIndex, mid := false))
    case StoreError => m
  }

  function Initial(c: Content): Machine { Machine(Pointers(c.seclang, 0, c.sha256, 0, false), [c]) }

  ghost predicate CanStoreAll(m: Machine, ss: seq<Store>)
    decreases |ss|
  {
    ss == [] || (CanStore(m, ss[0]) && CanStoreAll(AfterStore(m, ss[0]), ss[1..]))
  }

  ghost function AfterAll(m: Machine, ss: seq<Store>): Machine
    requires CanStoreAll(m, ss)
    decreases |ss|
  {
    if ss == [] then m else AfterAll(AfterStore(m, ss[0]), ss[1..])
  }

  /** Each pointer holds the content of its swap, and the WAF is ahead by one exactly in mid-swap. */
  ghost predicate Consistent(m: Machine) {
    && m.at.wafIndex + 1 == |m.swaps|
    && m.at.wafIndex == m.at.stateIndex + (if m.at.mid then 1 else 0)
    && m.at.waf == m.swaps[m.at.wafIndex].seclang
    && m.at.sha256 == m.swaps[m.at.stateIndex].sha256
  }

  lemma {:induction false} StoresKeepConsistent(m: Machine, ss: seq<Store>)
    requires Consistent(m) && CanStoreAll(m, ss)
    ensures Consistent(AfterAll(m, ss))
    ensures m.swaps <= AfterAll(m, ss).swaps && m.at.wafIndex <= AfterAll(m, ss).at.wafIndex
    decreases |ss|
  {
    if ss != [] {
      assert Consistent(AfterStore(m, ss[0]));
      StoresKeepConsistent(AfterStore(m, ss[0]), ss[1..]);
    }
  }

  /** In every run the WAF's swap index exceeds the state's by 0 or 1, and by 0 whenever no swap is under way. */
  lemma SwapLag(c: Content, ss: seq<Store>)
    requires CanStoreAll(Initial(c), ss)
    ensures var m := AfterAll(Initial(c), ss);
            && m.at.stateIndex <= m.at.wafIndex <= m.at.stateIndex + 1
            && (m.at.mid <==> m.at.wafIndex != m.at.stateIndex)
  {
    StoresKeepConsistent(Initial(c), ss);
  }

  /** A reader that loads the state and later the WAF gets the WAF of that state or of a later swap. */
  lemma StateThenWaf(c: Content, before: seq<Store>, between: seq<Store>)
    requires CanStoreAll(Initial(c), before) && CanStoreAll(AfterAll(Initial(c), before), between)
    ensures var seen := AfterAll(Initial(c), before);
            var later := AfterAll(seen, between);
            && seen.at.stateIndex <= later.at.wafIndex < |later.swaps|
            && seen.at.sha256 == later.swaps[seen.at.stateIndex].sha256
            && later.at.waf == later.swaps[later.at.wafIndex].seclang
            && (between == [] && !seen.at.mid ==> later.at.wafIndex == seen.at.stateIndex)
  {
    StoresKeepConsistent(Initial(c), before);
    StoresKeepConsistent(AfterAll(Initial(c), before), between);
  }

  /** The swaps that complete in a run. */
  function Completed(ss: seq<Store>): nat {
    if ss == [] then 0 else (if ss[0].StoreState? then 1 else 0) + Completed(ss[1..])
  }

  lemma {:induction false} StateCountsSwaps(m: Machine, ss: seq<Store>)
    requires Consistent(m) && CanStoreAll(m, ss)
    ensures AfterAll(m, ss).at.stateIndex == m.at.stateIndex + Completed(ss)
    decreases |ss|
  {
    if ss != [] {
      assert Consistent(AfterStore(m, ss[0]));
      StateCountsSwaps(AfterStore(m, ss[0]), ss[1..]);
    }
  }

  /** In the other order the reader pairs an old WAF with a newer state exactly when a swap completes between its two
      loads, beyond the one that was under way at the first. */
  lemma WafThenState(c: Content, before: seq<Store>, between: seq<Store>)
    requires CanStoreAll(Initial(c), before) && CanStoreAll(AfterAll(Initial(c), before), between)
    ensures var seen := AfterAll(Initial(c), before);
            var later := AfterAll(seen, between);
            && seen.at.wafIndex < |later.swaps| && later.at.stateIndex < |later.swaps|
            && seen.at.waf == later.swaps[seen.at.wafIndex].seclang
            && later.at.sha256 == later.swaps[later.at.stateIndex].sha256
            && (seen.at.wafIndex < later.at.stateIndex <==> Completed(between) > (if seen.at.mid then 1 else 0))
  {
    StoresKeepConsistent(Initial(c), before);
    StoresKeepConsistent(AfterAll(Initial(c), before), between);
    StateCountsSwaps(AfterAll(Initial(c), before), between);
  }

  /** Such a run exists: one whole swap fits in between. */
  lemma WafThenStateCanBeOlder(c: Content, d: Content)
    ensures var seen := Initial(c);
            && CanStoreAll(seen, [StoreWaf(d), StoreState])
            && var later := AfterAll(seen, [StoreWaf(d), StoreState]);
            && seen.at.wafIndex < later.at.stateIndex
            && later.at.sha256 == d.sha256 && seen.at.waf == c.seclang
  {
    var seen := Initial(c);
    var one := AfterStore(seen, StoreWaf(d));
    assert [StoreWaf(d), StoreState][1..] == [StoreState] && [StoreState][1..] == [];
    assert CanStoreAll(one, [StoreState]);
    assert AfterAll(one, [StoreState]) == AfterStore(one, StoreState);
  }
}
