/**
 internal/enginepkg/server.go: what the engine does with each bundle it receives. It swaps the WAF, moves the reload
 counters and the rule gauge, and writes the text of a successful swap to the cache file through a temporary file.
 A crash may come after any file operation; unsynced content is then lost or torn.
 */
module BundleHandler {
  import opened Wrappers
  import opened Text
  import opened Compiler
  import opened Provider

  /** The engine-side view of a received bundle. */
  datatype Received = Received(ruleSetName: string, sha256: string, compiled: string)

  // ----- The fold over received bundles -----

  /** What the handler maintains, as one value. */
  datatype View = View(
    seclang: string, sha256: string, ruleSetName: string, ruleCount: int, successes: nat, failures: nat, gauge: int)

  function Handled(v: View, b: Received, parses: string -> bool): View {
    if parses(b.compiled) then
      var n := DirectiveCount(Lines(b.compiled));
      View(b.compiled, b.sha256, b.ruleSetName, n, v.successes + 1, v.failures, n)
    else
      v.(failures := v.failures + 1)
  }

  function HandledAll(v: View, bs: seq<Received>, parses: string -> bool): View {
    if bs == [] then v else Handled(HandledAll(v, bs[..|bs| - 1], parses), bs[|bs| - 1], parses)
  }

  /** `i` is the last bundle that parses. */
  ghost predicate LastGood(bs: seq<Received>, parses: string -> bool, i: int) {
    && 0 <= i < |bs|
    && parses(bs[i].compiled)
    && forall j :: i < j < |bs| ==> !parses(bs[j].compiled)
  }

  /** The positions of the bundles that parse. */
  ghost function Parsing(bs: seq<Received>, parses: string -> bool): set<nat> {
    set i | 0 <= i < |bs| && parses(bs[i].compiled)
  }

  lemma NoneParsing(parses: string -> bool)
    ensures |Parsing([], parses)| == 0
  {
    assert Parsing([], parses) == {};
  }

  lemma OneMoreParsing(bs: seq<Received>, parses: string -> bool)
    requires bs != []
    ensures var n := |bs| - 1;
            |Parsing(bs, parses)| == |Parsing(bs[..n], parses)| + (if parses(bs[n].compiled) then 1 else 0)
  {
    var n := |bs| - 1;
    assert Parsing(bs, parses) == Parsing(bs[..n], parses) + (if parses(bs[n].compiled) then {n} else {});
  }

  /** The success counter counts the bundles that parse and the failure counter the others, and the gauge is the rule
      count of the active text: always if it was so at first, and in any case once a swap has succeeded. */
  lemma {:induction false} FoldCounts(v: View, bs: seq<Received>, parses: string -> bool)
    ensures var w := HandledAll(v, bs, parses);
            && w.successes == v.successes + |Parsing(bs, parses)|
            && w.successes + w.failures == v.successes + v.failures + |bs|
            && (v.gauge == DirectiveCount(Lines(v.seclang)) ==> w.gauge == DirectiveCount(Lines(w.seclang)))
            && (w.successes > v.successes ==> w.ruleCount == w.gauge == DirectiveCount(Lines(w.seclang)))
  {
    hide DirectiveCount, Lines, Parsing;
    assert bs == [] ==> |Parsing(bs, parses)| == 0 by { NoneParsing(parses); }
    if bs != [] {
      var n := |bs| - 1;
      FoldCounts(v, bs[..n], parses);
      OneMoreParsing(bs, parses);
    }
  }

  /** After any sequence, text, digest, name and count are those of its last parseable bundle. */
  lemma {:induction false} FoldIsLastParseable(v: View, bs: seq<Received>, parses: string -> bool, i: int)
    requires LastGood(bs, parses, i)
    ensures var w := HandledAll(v, bs, parses);
            && w.seclang == bs[i].compiled && w.sha256 == bs[i].sha256 && w.ruleSetName == bs[i].ruleSetName
            && w.ruleCount == DirectiveCount(Lines(bs[i].compiled))
  {
    hide DirectiveCount, Lines;
    var n := |bs| - 1;
    if i < n {
      assert !parses(bs[n].compiled);
      FoldIsLastParseable(v, bs[..n], parses, i);
    }
  }

  /** And with no parseable bundle only the failure counter has moved. */
  lemma {:induction false} FoldOfUnparseable(v: View, bs: seq<Received>, parses: string -> bool)
    requires forall i :: 0 <= i < |bs| ==> !parses(bs[i].compiled)
    ensures HandledAll(v, bs, parses) == v.(failures := v.failures + |bs|)
  {
    hide DirectiveCount, Lines;
    if bs != [] {
      FoldOfUnparseable(v, bs[..|bs| - 1], parses);
    }
  }

  // ----- The cache file -----

  /** File content, and whether it is durable. */
  datatype File = File(content: string, synced: bool)

  type Files = map<string, File>

  /** The operation of an atomic write that fails, if any. */
  datatype Fault = NoFault | CreateFails | WriteFails(written: nat) | SyncFails | CloseFails | RenameFails

  /** A disk, with every state it has been in. */
  class Disk {
    var files: Files
    ghost var crashPoints: seq<Files>

    constructor ()
      ensures files == map[] && crashPoints == [map[]]
    {
      files := map[];
      crashPoints := [map[]];
    }

    ghost predicate Recorded()
      reads this
    {
      crashPoints != [] && crashPoints[|crashPoints| - 1] == files
    }

    method Put(path: string, f: File)
      modifies this
      ensures files == old(files)[path := f] && crashPoints == old(crashPoints) + [files]
    {
      files := files[path := f];
      crashPoints := crashPoints + [files];
    }

    /** Atomic: the target goes from its old content to the source's in one step. */
    method Rename(from: string, to: string)
      requires from in files && from != to
      modifies this
      ensures files == (old(files) - {from})[to := old(files[from])] && crashPoints == old(crashPoints) + [files]
    {
      files := (files - {from})[to := files[from]];
      crashPoints := crashPoints + [files];
    }
  }

  /** In all states from `start` on, the file at `path` is as it was before, or holds `data` whole and durable. */
  ghost predicate OldOrWhole(states: seq<Files>, start: nat, path: string, before: Option<File>, data: string) {
    forall i :: start <= i < |states| ==> At(states[i], path) == before || At(states[i], path) == Some(File(data, true))
  }

  function At(fs: Files, path: string): Option<File> { if path in fs then Some(fs[path]) else None }

  lemma NoStateYet(states: seq<Files>, path: string, before: Option<File>, data: string)
    ensures OldOrWhole(states, |states|, path, before, data)
  {
  }

  lemma OneMoreState(
    states: seq<Files>, start: nat, path: string, before: Option<File>, data: string, next: Files)
    requires OldOrWhole(states, start, path, before, data)
    requires At(next, path) == before || At(next, path) == Some(File(data, true))
    ensures OldOrWhole(states + [next], start, path, before, data)
  {
    hide At;
  }

  /** A write to another file of the disk. */
  method PutAside(
    disk: Disk, tmp: string, f: File, path: string, ghost start: nat, ghost before: Option<File>, ghost data: string)
    requires tmp != path && At(disk.files, path) == before && OldOrWhole(disk.crashPoints, start, path, before, data)
    modifies disk
    ensures disk.files == old(disk.files)[tmp := f] && disk.crashPoints == old(disk.crashPoints) + [disk.files]
    ensures At(disk.files, path) == before && OldOrWhole(disk.crashPoints, start, path, before, data)
  {
    hide OldOrWhole;
    ghost var states := disk.crashPoints;
    disk.Put(tmp, f);
    OneMoreState(states, start, path, before, data, disk.files);
  }

  method AtomicWriteFile(disk: Disk, path: string, data: string, fault: Fault) returns (ok: bool)
    requires disk.Recorded()
    modifies disk
    ensures disk.Recorded() && old(disk.crashPoints) <= disk.crashPoints
    ensures OldOrWhole(disk.crashPoints, |old(disk.crashPoints)|, path, At(old(disk.files), path), data)
    ensures ok <==> fault.NoFault?
    ensures At(disk.files, path) == if ok then Some(File(data, true)) else At(old(disk.files), path)
  {
    hide OldOrWhole;
    var tmp := path + ".tmp";
    assert |tmp| == |path| + 4;
    ghost var start, before := |disk.crashPoints|, At(disk.files, path);
    NoStateYet(disk.crashPoints, path, before, data);
    if fault.CreateFails? {
      return false;
    }
    PutAside(disk, tmp, File("", false), path, start, before, data);
    if fault.WriteFails? {
      PutAside(disk, tmp, File(if fault.written <= |data| then data[..fault.written] else data, false),
               path, start, before, data);
      return false;
    }
    PutAside(disk, tmp, File(data, false), path, start, before, data);
    if fault.SyncFails? {
      return false;
    }
    PutAside(disk, tmp, File(data, true), path, start, before, data);
    if fault.CloseFails? || fault.RenameFails? {
      return false;
    }
    ghost var states := disk.crashPoints;
    disk.Rename(tmp, path);
    OneMoreState(states, start, path, before, data, disk.files);
    return true;
  }

  // ----- The handler -----

  class Handler {
    const provider: AtomicProvider
    const disk: Disk
    const cachePath: string
    var successes: nat
    var failures: nat
    var gauge: int

    constructor (p: AtomicProvider, d: Disk, path: string, ruleCount: int)
      ensures provider == p && disk == d && cachePath == path
      ensures successes == failures == 0 && gauge == ruleCount
    {
      provider, disk, cachePath := p, d, path;
      successes, failures, gauge := 0, 0, ruleCount;
    }

    function Look(): View
      reads this, provider
    {
      View(provider.waf.seclang, provider.state.sha256, provider.state.ruleSetName, provider.state.ruleCount,
           successes, failures, gauge)
    }

    /** In all states from `start` on, the cache is as it was before or holds one whole text of `texts`. */
    ghost predicate CacheWhole(start: nat, before: Option<File>, texts: set<string>)
      reads disk
    {
      forall i :: start <= i < |disk.crashPoints| ==>
        var f := At(disk.crashPoints[i], cachePath);
        f == before || (f.Some? && f.value.synced && f.value.content in texts)
    }

    method OnBundle(b: Received, parses: string -> bool, parseError: string, now: int, fault: Fault)
      requires disk.Recorded()
      modifies this, provider, disk
      ensures disk.Recorded() && old(disk.crashPoints) <= disk.crashPoints
      ensures Look() == Handled(old(Look()), b, parses)
      ensures cachePath == "" || !parses(b.compiled) ==> disk.files == old(disk.files) && disk.crashPoints == old(disk.crashPoints)
      ensures CacheWhole(|old(disk.crashPoints)|, At(old(disk.files), cachePath), if parses(b.compiled) then {b.compiled} else {})
      ensures At(disk.files, cachePath) ==
              if parses(b.compiled) && cachePath != "" && fault.NoFault? then Some(File(b.compiled, true))
              else At(old(disk.files), cachePath)
    {
      var ok := provider.Swap(b.ruleSetName, b.sha256, b.compiled, parses, parseError, now);
      if !ok {
        failures := failures + 1;
        return;
      }
      successes := successes + 1;
      gauge := provider.state.ruleCount;
      if cachePath == "" {
        return;
      }
      var written := AtomicWriteFile(disk, cachePath, b.compiled, fault);
    }

    /** Any sequence of bundles: the fold of the handler, and at every crash point a whole cache file or the old one. */
    method OnBundles(bs: seq<Received>, parses: string -> bool, parseError: string, now: int, faults: seq<Fault>)
      requires disk.Recorded() && |faults| == |bs|
      modifies this, provider, disk
      ensures disk.Recorded() && old(disk.crashPoints) <= disk.crashPoints
      ensures Look() == HandledAll(old(Look()), bs, parses)
      ensures CacheWhole(|old(disk.crashPoints)|, At(old(disk.files), cachePath), Swappable(bs, parses))
    {
      ghost var start := |disk.crashPoints|;
      ghost var before := At(disk.files, cachePath);
      for i := 0 to |bs|
        invariant disk.Recorded() && old(disk.crashPoints) <= disk.crashPoints
        invariant Look() == HandledAll(old(Look()), bs[..i], parses)
        invariant CacheWhole(start, before, Swappable(bs, parses))
        invariant var f := At(disk.files, cachePath);
                  f == before || (f.Some? && f.value.synced && f.value.content in Swappable(bs, parses))
      {
        assert bs[..i + 1][..i] == bs[..i];
        assert parses(bs[i].compiled) ==> bs[i].compiled in Swappable(bs, parses);
        ghost var sofar := disk.crashPoints;
        OnBundle(bs[i], parses, parseError, now, faults[i]);
        assert forall j :: 0 <= j < |sofar| ==> disk.crashPoints[j] == sofar[j];
      }
      assert bs[..|bs|] == bs;
    }
  }

  /** The texts that are swapped in. */
  ghost function Swappable(bs: seq<Received>, parses: string -> bool): set<string> {
    set i | 0 <= i < |bs| && parses(bs[i].compiled) :: bs[i].compiled
  }
}
