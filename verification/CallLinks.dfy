/**
  Calls linked between code blocks. The first slow call of a site marks it, the
  second may link it to its callee, and from then on no attempt is made. A linked
  site's CallLinkInfo points to the block it calls, and that block lists its
  callers; each caller knows its position in the list. Blocks are made, called,
  unlinked and destroyed in any order.
 */
module CallLinks {
  // A callee: the function of a block, or a native one, which has no block.
  datatype Target<T> = Nowhere | Block(block: T) | Native(id: nat)

  // The life of a call site.
  datatype State<T> = New | Seen | Virtual(target: Target<T>)

  /** One slow call: seen, then linked if `matches`, then left to the virtual-call stub. */
  function Called<T>(s: State<T>, callee: Target<T>, matches: bool): State<T> {
    match s
    case New => Seen
    case Seen => Virtual(if matches then callee else Nowhere)
    case Virtual(_) => s
  }

  /** The link to `b` is gone, all others stay. */
  function Without<T(==)>(s: State<T>, b: T): State<T> {
    if s == Virtual(Block(b)) then Virtual(Nowhere) else s
  }

  // Where the slow path of a call site goes.
  datatype Stub = VirtualCallLink | VirtualCall

  class CallLinkInfo {
    const ownerCodeBlock: CodeBlock
    var callee: CodeBlock?
    var position: nat
    var seen: bool
    // Patched into the compiled call: what it compares the callee with, what it then
    // calls, and where it goes otherwise.
    var hotPathBegin: Target<CodeBlock>
    var hotPathOther: Target<CodeBlock>
    var callReturnLocation: Stub

    constructor (owner: CodeBlock)
      ensures ownerCodeBlock == owner && callee == null && State() == New && hotPathBegin == Nowhere
      ensures hotPathOther == Nowhere && callReturnLocation == VirtualCallLink
    {
      ownerCodeBlock := owner;
      callee := null;
      seen := false;
      hotPathBegin := Nowhere;
      hotPathOther := Nowhere;
      callReturnLocation := VirtualCallLink;
    }

    predicate IsLinked()
      reads this
    {
      callee != null
    }

    function State(): State<CodeBlock>
      reads this
    {
      if !seen then New else if callReturnLocation == VirtualCallLink then Seen else Virtual(hotPathBegin)
    }
  }

  /** What is left of a list when its last element takes the place of element `k`. */
  function SwapRemove<T>(s: seq<T>, k: nat): (r: seq<T>)
    requires k < |s|
    ensures |r| == |s| - 1
  {
    s[k := s[|s| - 1]][..|s| - 1]
  }

  /** Swap-removal loses the removed element and nothing else. */
  lemma SwapRemoveLosesOne<T>(s: seq<T>, k: nat)
    requires k < |s|
    ensures multiset(SwapRemove(s, k)) == multiset(s) - multiset{s[k]}
  {
    var t := s[k := s[|s| - 1]];
    assert t == t[..|s| - 1] + [s[|s| - 1]];
    assert s == s[..|s| - 1] + [s[|s| - 1]];
    assert s == s[..k] + [s[k]] + s[k + 1..];
    assert t == s[..k] + [s[|s| - 1]] + s[k + 1..];
  }

  class CodeBlock {
    const numParameters: nat
    var callLinkInfos: seq<CallLinkInfo>
    var linkedCallerList: seq<CallLinkInfo>

    constructor (parameters: nat)
      ensures numParameters == parameters && callLinkInfos == [] && linkedCallerList == []
    {
      numParameters := parameters;
      callLinkInfos := [];
      linkedCallerList := [];
    }

    method AddCaller(caller: CallLinkInfo)
      modifies this`linkedCallerList, caller`callee, caller`position
      ensures caller.callee == this && caller.position == |old(linkedCallerList)|
      ensures linkedCallerList == old(linkedCallerList) + [caller]
    {
      caller.callee := this;
      caller.position := |linkedCallerList|;
      linkedCallerList := linkedCallerList + [caller];
    }

    /** The last caller moves to the free place and learns its new position. */
    method RemoveCaller(caller: CallLinkInfo)
      requires caller.position < |linkedCallerList|
      modifies this`linkedCallerList, linkedCallerList`position
      ensures linkedCallerList == SwapRemove(old(linkedCallerList), old(caller.position))
      ensures var last := old(linkedCallerList)[|linkedCallerList|];
              && (forall c | c in old(linkedCallerList) && c != last :: c.position == old(c.position))
              && last.position == if old(caller.position) < |linkedCallerList| then old(caller.position)
                                  else old(last.position)
    {
      var pos := caller.position;
      var lastPos := |linkedCallerList| - 1;
      if pos != lastPos {
        linkedCallerList := linkedCallerList[pos := linkedCallerList[lastPos]];
        linkedCallerList[pos].position := pos;
      }
      linkedCallerList := linkedCallerList[..lastPos];
    }

    /** Every caller's code is repatched, so its block has to be alive. */
    method UnlinkCallers(ghost live: set<CodeBlock>)
      requires forall c <- linkedCallerList :: c.ownerCodeBlock in live
      modifies this`linkedCallerList, linkedCallerList`callee, linkedCallerList`hotPathBegin
      ensures linkedCallerList == []
      ensures forall c | c in old(linkedCallerList) :: c.callee == null && c.hotPathBegin == Nowhere
    {
      for i := 0 to |linkedCallerList|
        invariant linkedCallerList == old(linkedCallerList)
        invariant forall k | 0 <= k < i ::
          linkedCallerList[k].callee == null && linkedCallerList[k].hotPathBegin == Nowhere
      {
        UnlinkCall(linkedCallerList[i], live);
        linkedCallerList[i].callee := null;
      }
      linkedCallerList := [];
    }
  }

  /** JIT::unlinkCall: the compiled check does not match any function any more. */
  method UnlinkCall(info: CallLinkInfo, ghost live: set<CodeBlock>)
    requires info.ownerCodeBlock in live
    modifies info`hotPathBegin
    ensures info.hotPathBegin == Nowhere
  {
    info.hotPathBegin := Nowhere;
  }

  function BlockOf(callee: Target<CodeBlock>): set<CodeBlock> {
    if callee.Block? then {callee.block} else {}
  }

  predicate Accepts(callee: Target<CodeBlock>, callerArgCount: nat) {
    callee.Block? ==> callerArgCount == callee.block.numParameters
  }

  /** JIT::linkCall, which asserts that the site is not linked yet. */
  method LinkCall(callee: Target<CodeBlock>, callerArgCount: nat, info: CallLinkInfo)
    requires callee != Nowhere && !info.IsLinked()
    modifies BlockOf(callee)`linkedCallerList, info`callee, info`position
    modifies info`hotPathBegin, info`hotPathOther, info`callReturnLocation
    ensures info.callReturnLocation == VirtualCall
    ensures info.hotPathBegin == if Accepts(callee, callerArgCount) then callee else old(info.hotPathBegin)
    ensures info.hotPathOther == if Accepts(callee, callerArgCount) then callee else old(info.hotPathOther)
    ensures info.callee == if Accepts(callee, callerArgCount) && callee.Block? then callee.block else null
    ensures callee.Block? ==>
              if callerArgCount != callee.block.numParameters then unchanged(callee.block)
              else && info.position == |old(callee.block.linkedCallerList)|
                   && callee.block.linkedCallerList == old(callee.block.linkedCallerList) + [info]
  {
    if !callee.Block? || callerArgCount == callee.block.numParameters {
      if callee.Block? {
        callee.block.AddCaller(info);
      }
      info.hotPathBegin := callee;
      info.hotPathOther := callee;
    }
    info.callReturnLocation := VirtualCall;
  }

  /** The stub vm_lazyLinkCall: a site is linked at its second call. */
  method LazyLinkCall(callee: Target<CodeBlock>, callerArgCount: nat, info: CallLinkInfo)
    requires callee != Nowhere && info.callReturnLocation == VirtualCallLink
    requires !info.IsLinked() && info.hotPathBegin == Nowhere
    modifies BlockOf(callee)`linkedCallerList, info
    ensures info.State() == Called(old(info.State()), callee, Accepts(callee, callerArgCount))
    ensures info.callee == if info.hotPathBegin.Block? then info.hotPathBegin.block else null
    ensures info.State() == Seen ==> info.hotPathBegin == Nowhere
    ensures info.hotPathBegin != Nowhere ==> info.hotPathOther == info.hotPathBegin
    ensures callee.Block? ==>
              if info.callee == null then unchanged(callee.block)
              else && info.callee == callee.block && info.position == |old(callee.block.linkedCallerList)|
                   && callee.block.linkedCallerList == old(callee.block.linkedCallerList) + [info]
  {
    if !info.seen {
      info.seen := true;
    } else {
      LinkCall(callee, callerArgCount, info);
    }
  }

  // The invariant over all blocks ----------------------------------------------------

  /**
    A linked call site sits in its callee's list, at its own position, and compares
    with that callee before it calls its code. What has not been given to the virtual-call stub is not linked.
   */
  ghost predicate SiteOk(live: set<CodeBlock>, c: CallLinkInfo)
    reads c, live`linkedCallerList
  {
    && (c.callee == if c.hotPathBegin.Block? then c.hotPathBegin.block else null)
    && (c.hotPathBegin != Nowhere ==> c.hotPathOther == c.hotPathBegin)
    && (c.callReturnLocation == VirtualCallLink ==> c.hotPathBegin == Nowhere)
    && (c.callReturnLocation == VirtualCall ==> c.seen)
    && (c.callee != null ==>
          && c.callee in live && c.position < |c.callee.linkedCallerList|
          && c.callee.linkedCallerList[c.position] == c)
  }

  /** A list holds only sites that point back to it from there. */
  ghost predicate ListOk(sites: set<CallLinkInfo>, b: CodeBlock)
    reads b`linkedCallerList, sites`callee, sites`position
  {
    forall k | 0 <= k < |b.linkedCallerList| ::
      var c := b.linkedCallerList[k];
      c in sites && c.callee == b && c.position == k
  }

  /** The sites are those of the live blocks. */
  ghost predicate Owned(live: set<CodeBlock>, sites: set<CallLinkInfo>)
    reads live`callLinkInfos
  {
    && (forall c <- sites :: c.ownerCodeBlock in live && c in c.ownerCodeBlock.callLinkInfos)
    && (forall b <- live, c <- b.callLinkInfos :: c in sites && c.ownerCodeBlock == b)
    && (forall b <- live, j, k | 0 <= j < k < |b.callLinkInfos| :: b.callLinkInfos[j] != b.callLinkInfos[k])
  }

  /** Sites and lists agree, and no list holds any other site. */
  ghost predicate Linked(live: set<CodeBlock>, sites: set<CallLinkInfo>)
    reads live`linkedCallerList, sites
  {
    (forall c <- sites :: SiteOk(live, c)) && (forall b <- live :: ListOk(sites, b))
  }

  // All live code blocks and their call sites.
  class World {
    var live: set<CodeBlock>
    var sites: set<CallLinkInfo>
    // The native functions that are gone.
    var freed: set<nat>

    ghost predicate Valid()
      reads this, live, sites
    {
      Owned(live, sites) && Linked(live, sites)
    }

    constructor ()
      ensures Valid() && live == {} && sites == {} && freed == {}
    {
      live := {};
      sites := {};
      freed := {};
    }

    /** A new block with `calls` call sites, none of them linked. */
    method Compile(parameters: nat, calls: nat) returns (b: CodeBlock)
      requires Valid()
      modifies this
      ensures Valid() && fresh(b) && live == old(live) + {b} && freed == old(freed)
      ensures old(sites) <= sites && fresh(sites - old(sites)) && forall c <- sites - old(sites) :: c.State() == New
      ensures b.linkedCallerList == [] && |b.callLinkInfos| == calls && b.numParameters == parameters
      ensures forall c <- b.callLinkInfos :: c in sites && c.State() == New
    {
      hide Valid, CallLinkInfo.State;
      b := AddBlock(parameters);
      AddCallLinkInfos(b, calls);
    }

    /** `calls` new sites for a block that has none. */
    method AddCallLinkInfos(b: CodeBlock, calls: nat)
      requires Valid() && b in live && b.callLinkInfos == []
      modifies this`sites, b`callLinkInfos
      ensures Valid() && |b.callLinkInfos| == calls
      ensures old(sites) <= sites && fresh(sites - old(sites)) && forall c <- sites - old(sites) :: c.State() == New
      ensures forall c <- b.callLinkInfos :: c in sites && c.State() == New
    {
      hide Valid, CallLinkInfo.State;
      for i := 0 to calls
        invariant Valid() && |b.callLinkInfos| == i
        invariant old(sites) <= sites && fresh(sites - old(sites)) && forall c <- sites - old(sites) :: c.State() == New
        invariant forall c <- b.callLinkInfos :: c in sites && c.State() == New
      {
        var _ := AddCallLinkInfo(b);
      }
    }

    method AddBlock(parameters: nat) returns (b: CodeBlock)
      requires Valid()
      modifies this`live
      ensures Valid() && fresh(b) && live == old(live) + {b}
      ensures b.linkedCallerList == [] && b.callLinkInfos == [] && b.numParameters == parameters
    {
      b := new CodeBlock(parameters);
      live := live + {b};
    }

    method AddCallLinkInfo(b: CodeBlock) returns (c: CallLinkInfo)
      requires Valid() && b in live
      modifies this`sites, b`callLinkInfos
      ensures Valid() && b.callLinkInfos == old(b.callLinkInfos) + [c]
      ensures sites == old(sites) + {c} && fresh(c) && c.State() == New
    {
      hide Linked;
      c := new CallLinkInfo(b);
      UnlinkedSiteJoins(live, sites, c);
      b.callLinkInfos := b.callLinkInfos + [c];
      sites := sites + {c};
    }

    /**
      A slow call at a site, possibly of its own block. Only where the stub for
      linking is still in place can the site be linked, and then it is not yet.
     */
    method Call(callee: Target<CodeBlock>, callerArgCount: nat, c: CallLinkInfo)
      requires Valid() && c in sites && callee != Nowhere && BlockOf(callee) <= live
      modifies BlockOf(callee)`linkedCallerList, c
      ensures Valid()
      ensures c.State() == Called(old(c.State()), callee, Accepts(callee, callerArgCount))
    {
      hide Owned;
      if c.callReturnLocation == VirtualCallLink {
        LazyLinkCall(callee, callerArgCount, c);
      }
    }

    /** The destructor of a native function, which unlinks nothing: nobody knows its callers. */
    method FreeNative(id: nat)
      requires Valid()
      modifies this`freed
      ensures Valid() && freed == old(freed) + {id}
    {
      freed := freed + {id};
    }

    /** Afterwards exactly the calls to `b` are unlinked. */
    method Unlink(b: CodeBlock)
      requires Valid() && b in live
      modifies b`linkedCallerList, sites`callee, sites`hotPathBegin
      ensures Valid() && b.linkedCallerList == []
      ensures forall c <- sites :: c.State() == Without(old(c.State()), b)
    {
      UnlinkFrom(b, live, sites, live);
    }

    /** Afterwards no live site calls `b`, no list holds one of its sites, and nothing else changed. */
    method Destroy(b: CodeBlock)
      requires Valid() && b in live
      modifies this, live`linkedCallerList, sites
      ensures Valid() && live == old(live) - {b} && freed == old(freed)
      ensures sites == old(sites) - SitesOf(b)
      ensures forall c <- sites :: c.State() == Without(old(c.State()), b)
    {
      hide Owned, Linked;
      var rest := sites - SitesOf(b);
      DetachSites(b, live, sites);
      RestIsForeign(live, sites, b);
      UnlinkFrom(b, live, rest, live - {b});
      ForgetBlock(live, sites, b);
      live := live - {b};
      sites := rest;
    }
  }

  lemma UnlinkedSiteJoins(live: set<CodeBlock>, sites: set<CallLinkInfo>, c: CallLinkInfo)
    requires Linked(live, sites) && SiteOk(live, c) && c.callee == null
    ensures Linked(live, sites + {c})
  {
  }

  function SitesOf(b: CodeBlock): set<CallLinkInfo>
    reads b`callLinkInfos
  {
    set c | c in b.callLinkInfos
  }

  /** unlinkCallers for a block whose list agrees with `sites`, all owned by `owners`. */
  method UnlinkFrom(b: CodeBlock, ghost live: set<CodeBlock>, ghost sites: set<CallLinkInfo>,
                    ghost owners: set<CodeBlock>)
    requires Linked(live, sites) && b in live && forall c <- sites :: c.ownerCodeBlock in owners
    modifies b`linkedCallerList, sites`callee, sites`hotPathBegin
    ensures Linked(live, sites) && b.linkedCallerList == []
    ensures forall c <- sites :: c.State() == Without(old(c.State()), b)
  {
    assert forall c <- sites | c.callee == b :: b.linkedCallerList[c.position] == c;
    b.UnlinkCallers(owners);
  }

  lemma RestIsForeign(live: set<CodeBlock>, sites: set<CallLinkInfo>, b: CodeBlock)
    requires Owned(live, sites)
    ensures forall c <- sites - SitesOf(b) :: c.ownerCodeBlock in live - {b}
  {
  }

  /** A block without callers whose own sites are detached can go. */
  lemma ForgetBlock(live: set<CodeBlock>, sites: set<CallLinkInfo>, b: CodeBlock)
    requires Owned(live, sites) && Linked(live, sites - SitesOf(b)) && b in live && b.linkedCallerList == []
    ensures Owned(live - {b}, sites - SitesOf(b)) && Linked(live - {b}, sites - SitesOf(b))
  {
    forall other <- live - {b}, c <- other.callLinkInfos
      ensures c !in SitesOf(b)
    {
      assert c.ownerCodeBlock == other;
    }
  }

  /** What the destructor does for one call site. */
  method Detach(c: CallLinkInfo, ghost live: set<CodeBlock>, ghost sites: set<CallLinkInfo>)
    requires Linked(live, sites) && c in sites
    modifies live`linkedCallerList, sites`position
    ensures Linked(live, sites - {c})
  {
    if c.IsLinked() {
      c.callee.RemoveCaller(c);
    }
  }

  /** The destructor's loop over the block's own call sites. */
  method DetachSites(b: CodeBlock, ghost live: set<CodeBlock>, ghost sites: set<CallLinkInfo>)
    requires Owned(live, sites) && Linked(live, sites) && b in live
    modifies live`linkedCallerList, sites`position
    ensures Linked(live, sites - SitesOf(b))
  {
    hide Linked;
    ghost var rest := sites;
    for i := 0 to |b.callLinkInfos|
      invariant Linked(live, rest)
      invariant rest == sites - set c | c in b.callLinkInfos[..i]
    {
      var c := b.callLinkInfos[i];
      Detach(c, live, rest);
      rest := rest - {c};
      assert b.callLinkInfos[..i + 1] == b.callLinkInfos[..i] + [c];
    }
    assert b.callLinkInfos[..|b.callLinkInfos|] == b.callLinkInfos;
  }

  // What the invariant means, and every run ------------------------------------------

  /**
    A live site calls `b` exactly when it sits in b's list at its recorded
    position, and then nowhere else; no list holds a site of a dead block, and no
    live site calls, or still compares with, a dead one.
   */
  lemma LinksAreSafe(live: set<CodeBlock>, sites: set<CallLinkInfo>, c: CallLinkInfo, b: CodeBlock)
    requires Owned(live, sites) && Linked(live, sites) && c in sites && b in live
    ensures c.callee == b <==> c.position < |b.linkedCallerList| && b.linkedCallerList[c.position] == c
    ensures c.callee == null || c.callee in live
    ensures c.hotPathBegin.Block? ==> c.hotPathBegin.block == c.callee
    ensures c.hotPathBegin != Nowhere ==> c.hotPathOther == c.hotPathBegin
    ensures c.callReturnLocation == VirtualCallLink ==> !c.IsLinked()
    ensures forall k | 0 <= k < |b.linkedCallerList| ::
              && b.linkedCallerList[k].ownerCodeBlock in live
              && (b.linkedCallerList[k] == c ==> c.callee == b && k == c.position)
  {
    assert SiteOk(live, c) && ListOk(sites, b);
  }

  // Every run ---------------------------------------------------------------------------

  // Blocks and sites are given by their numbers, in the order they were made.
  datatype Command =
    | MakeBlock(parameters: nat, calls: nat)
    | CallAt(caller: nat, site: nat, callee: Target<nat>, args: nat)
    | UnlinkBlock(block: nat)
    | FreeNative(id: nat)
    | DestroyBlock(block: nat)

  type Site = (nat, nat)

  // The blocks made, those alive, the native functions gone, and how far the sites
  // called so far have got: no lists, no positions, no pointers.
  datatype Model = Model(parameters: seq<nat>, calls: seq<nat>, live: set<nat>, freed: set<nat>,
                         states: map<Site, State<nat>>)
  {
    function StateOf(s: Site): State<nat> {
      if s in states then states[s] else New
    }
  }

  const NO_BLOCKS := Model([], [], {}, {}, map[])

  /** Commands that name something dead do nothing. */
  function Do(m: Model, command: Command): Model {
    match command
    case MakeBlock(parameters, calls) =>
      m.(parameters := m.parameters + [parameters], calls := m.calls + [calls], live := m.live + {|m.parameters|})
    case CallAt(caller, site, callee, args) =>
      if CanCall(m, caller, site, callee)
      then m.(states := m.states[(caller, site) :=
                Called(m.StateOf((caller, site)), callee, callee.Block? ==> args == m.parameters[callee.block])])
      else m
    case UnlinkBlock(block) =>
      if block in m.live then m.(states := map s | s in m.states :: Without(m.states[s], block)) else m
    case FreeNative(id) => m.(freed := m.freed + {id})
    case DestroyBlock(block) =>
      if block in m.live
      then m.(live := m.live - {block},
              states := map s | s in m.states && s.0 != block :: Without(m.states[s], block))
      else m
  }

  predicate CanCall(m: Model, caller: nat, site: nat, callee: Target<nat>) {
    && caller in m.live && caller < |m.calls| && site < m.calls[caller] && callee != Nowhere
    && (callee.Block? ==> callee.block in m.live && callee.block < |m.parameters|)
    && (callee.Native? ==> callee.id !in m.freed)
  }

  function After(commands: seq<Command>): Model {
    if commands == [] then NO_BLOCKS
    else Do(After(commands[..|commands| - 1]), commands[|commands| - 1])
  }

  /** Only live sites are linked, and only to live blocks. */
  ghost predicate Sound(m: Model) {
    && |m.calls| == |m.parameters| && (forall b <- m.live :: b < |m.parameters|)
    && (forall s <- m.states :: s.0 in m.live && s.1 < m.calls[s.0] && TargetLives(m, m.states[s]))
  }

  predicate TargetLives(m: Model, s: State<nat>) {
    s.Virtual? && s.target.Block? ==> s.target.block in m.live
  }

  lemma {:induction false} EveryRunSound(commands: seq<Command>)
    ensures Sound(After(commands))
  {
    if commands != [] {
      hide Sound, Do;
      var n := |commands| - 1;
      EveryRunSound(commands[..n]);
      DoKeepsSound(After(commands[..n]), commands[n]);
    }
  }

  lemma DoKeepsSound(m: Model, c: Command)
    requires Sound(m)
    ensures Sound(Do(m, c))
  {
    match c
    case MakeBlock(_, _) =>
    case CallAt(_, _, _, _) =>
    case UnlinkBlock(_) =>
    case FreeNative(_) =>
    case DestroyBlock(_) =>
  }

  /**
    A site is linked at most once: given to the virtual-call stub it stays there, and
    only a link to a block can be taken back.
   */
  lemma {:induction false} LinkedOnce(commands: seq<Command>, n: nat, s: Site)
    requires n <= |commands| && After(commands[..n]).StateOf(s).Virtual? && s.0 in After(commands).live
    ensures var before, after := After(commands[..n]).StateOf(s), After(commands).StateOf(s);
            after == before || (before.target.Block? && after == Virtual(Nowhere))
  {
    if n == |commands| {
      assert commands[..n] == commands;
    } else {
      var earlier := commands[..|commands| - 1];
      assert earlier[..n] == commands[..n];
      hide Do, Sound;
      EveryRunSound(commands[..n]);
      BlocksAddUp(earlier, n);
      VirtualCallerMade(After(commands[..n]), s);
      EveryRunSound(earlier);
      CallerLived(After(earlier), commands[|commands| - 1], s);
      LinkedOnce(earlier, n, s);
      VirtualStep(After(earlier), commands[|commands| - 1], s);
    }
  }

  lemma VirtualCallerMade(m: Model, s: Site)
    requires Sound(m) && m.StateOf(s).Virtual?
    ensures s.0 < |m.parameters|
  {
  }

  lemma CallerLived(m: Model, c: Command, s: Site)
    requires s.0 < |m.parameters| && s.0 in Do(m, c).live
    ensures s.0 in m.live
  {
  }

  lemma VirtualStep(m: Model, c: Command, s: Site)
    requires m.StateOf(s).Virtual? && s.0 in m.live && s.0 in Do(m, c).live
    ensures var before, after := m.StateOf(s), Do(m, c).StateOf(s);
            after == before || (before.target.Block? && after == Virtual(Nowhere))
  {
  }

  lemma {:induction false} BlocksAddUp(commands: seq<Command>, n: nat)
    requires n <= |commands|
    ensures |After(commands[..n]).parameters| <= |After(commands).parameters|
  {
    if n == |commands| {
      assert commands[..n] == commands;
    } else {
      var earlier := commands[..|commands| - 1];
      assert earlier[..n] == commands[..n];
      BlocksAddUp(earlier, n);
    }
  }

  /** The state of a call site in the objects, told with block numbers. */
  ghost predicate SiteMatches(w: World, blocks: seq<CodeBlock>, m: Model, n: nat, s: nat)
    requires n < |blocks|
    reads w, blocks, w.sites
  {
    && s < |blocks[n].callLinkInfos|
    && blocks[n].callLinkInfos[s] in w.sites
    && StateMatches(blocks, blocks[n].callLinkInfos[s].State(), m.StateOf((n, s)))
  }

  ghost predicate StateMatches(blocks: seq<CodeBlock>, state: State<CodeBlock>, numbered: State<nat>) {
    match numbered
    case New => state == New
    case Seen => state == Seen
    case Virtual(target) => state.Virtual? && TargetMatches(blocks, state.target, target)
  }

  ghost predicate TargetMatches(blocks: seq<CodeBlock>, target: Target<CodeBlock>, numbered: Target<nat>) {
    match numbered
    case Nowhere => target == Nowhere
    case Block(n) => n < |blocks| && target == Block(blocks[n])
    case Native(f) => target == Native(f)
  }

  /** The objects are what the model says. */
  ghost predicate Represents(w: World, blocks: seq<CodeBlock>, m: Model)
    reads w, blocks, w.sites
  {
    && |blocks| == |m.parameters| == |m.calls|
    && (forall j, k | 0 <= j < k < |blocks| :: blocks[j] != blocks[k])
    && (forall n | 0 <= n < |blocks| :: blocks[n].numParameters == m.parameters[n])
    && w.freed == m.freed
    && (forall n | 0 <= n < |blocks| :: n in m.live <==> blocks[n] in w.live)
    && (forall n | 0 <= n < |blocks| && n in m.live :: |blocks[n].callLinkInfos| == m.calls[n])
    && (forall n, s | 0 <= n < |blocks| && n in m.live && 0 <= s < m.calls[n] :: SiteMatches(w, blocks, m, n, s))
  }

  method DoMake(w: World, blocks: seq<CodeBlock>, ghost m: Model, parameters: nat, calls: nat)
      returns (blocks': seq<CodeBlock>)
    requires w.Valid() && Sound(m) && Represents(w, blocks, m) && (forall b <- blocks :: allocated(b))
    modifies w
    ensures w.Valid() && Represents(w, blocks', Do(m, MakeBlock(parameters, calls)))
    ensures fresh(w.live - old(w.live)) && fresh(w.sites - old(w.sites))
  {
    hide World.Valid;
    ghost var m' := Do(m, MakeBlock(parameters, calls));
    var b := w.Compile(parameters, calls);
    blocks' := blocks + [b];
    forall n, s | 0 <= n < |blocks'| && n in m'.live && 0 <= s < m'.calls[n]
      ensures SiteMatches(w, blocks', m', n, s)
    {
      if n < |blocks| {
        assert old(SiteMatches(w, blocks, m, n, s));
      } else {
        assert (n, s) !in m.states;
        assert b.callLinkInfos[s] in b.callLinkInfos;
      }
    }
  }

  /** Another site of a live block is another object. */
  lemma SitesDiffer(live: set<CodeBlock>, sites: set<CallLinkInfo>, b: CodeBlock, s: nat, b': CodeBlock, s': nat)
    requires Owned(live, sites) && b in live && b' in live
    requires s < |b.callLinkInfos| && s' < |b'.callLinkInfos| && (b != b' || s != s')
    ensures b.callLinkInfos[s] != b'.callLinkInfos[s']
  {
    assert b.callLinkInfos[s] in b.callLinkInfos && b'.callLinkInfos[s'] in b'.callLinkInfos;
    if b == b' && s < s' {
      assert b.callLinkInfos[s] != b.callLinkInfos[s'];
    } else if b == b' {
      assert b.callLinkInfos[s'] != b.callLinkInfos[s];
    } else {
      assert b.callLinkInfos[s].ownerCodeBlock != b'.callLinkInfos[s'].ownerCodeBlock;
    }
  }

  method DoCall(w: World, blocks: seq<CodeBlock>, ghost m: Model,
                caller: nat, site: nat, callee: Target<nat>, args: nat)
    requires w.Valid() && Sound(m) && Represents(w, blocks, m)
    modifies w.live, w.sites
    ensures w.Valid() && Represents(w, blocks, Do(m, CallAt(caller, site, callee, args)))
  {
    hide Owned, Linked;
    ghost var m' := Do(m, CallAt(caller, site, callee, args));
    if caller < |blocks| && blocks[caller] in w.live && site < |blocks[caller].callLinkInfos| && callee != Nowhere
       && (callee.Block? ==> callee.block < |blocks| && blocks[callee.block] in w.live)
       && (callee.Native? ==> callee.id !in w.freed) {
      assert SiteMatches(w, blocks, m, caller, site);
      var c := blocks[caller].callLinkInfos[site];
      var target := if callee.Block? then Block(blocks[callee.block]) else Native(callee.id);
      w.Call(target, args, c);
      forall n, s | 0 <= n < |blocks| && n in m'.live && 0 <= s < m'.calls[n]
        ensures SiteMatches(w, blocks, m', n, s)
      {
        assert old(SiteMatches(w, blocks, m, n, s));
        if (n, s) != (caller, site) {
          assert blocks[n] != blocks[caller] || n == caller;
          SitesDiffer(w.live, w.sites, blocks[n], s, blocks[caller], site);
        }
      }
    }
  }

  method DoUnlink(w: World, blocks: seq<CodeBlock>, ghost m: Model, block: nat)
    requires w.Valid() && Sound(m) && Represents(w, blocks, m)
    modifies w.live, w.sites
    ensures w.Valid() && Represents(w, blocks, Do(m, UnlinkBlock(block)))
  {
    hide World.Valid;
    ghost var m' := Do(m, UnlinkBlock(block));
    if block < |blocks| && blocks[block] in w.live {
      w.Unlink(blocks[block]);
      forall n, s | 0 <= n < |blocks| && n in m'.live && 0 <= s < m'.calls[n]
        ensures SiteMatches(w, blocks, m', n, s)
      {
        assert old(SiteMatches(w, blocks, m, n, s));
      }
    }
  }

  method DoFree(w: World, blocks: seq<CodeBlock>, ghost m: Model, id: nat)
    requires w.Valid() && Represents(w, blocks, m)
    modifies w
    ensures w.Valid() && Represents(w, blocks, Do(m, FreeNative(id)))
    ensures w.live == old(w.live) && w.sites == old(w.sites)
  {
    hide World.Valid;
    ghost var m' := Do(m, FreeNative(id));
    w.FreeNative(id);
    forall n, s | 0 <= n < |blocks| && n in m'.live && 0 <= s < m'.calls[n]
      ensures SiteMatches(w, blocks, m', n, s)
    {
      assert old(SiteMatches(w, blocks, m, n, s));
    }
  }

  method DoDestroy(w: World, blocks: seq<CodeBlock>, ghost m: Model, block: nat)
    requires w.Valid() && Sound(m) && Represents(w, blocks, m)
    modifies w, w.live, w.sites
    ensures w.Valid() && Represents(w, blocks, Do(m, DestroyBlock(block)))
    ensures w.live <= old(w.live) && w.sites <= old(w.sites)
  {
    hide Owned, Linked;
    ghost var m' := Do(m, DestroyBlock(block));
    if block < |blocks| && blocks[block] in w.live {
      var b := blocks[block];
      w.Destroy(b);
      forall n, s | 0 <= n < |blocks| && n in m'.live && 0 <= s < m'.calls[n]
        ensures SiteMatches(w, blocks, m', n, s)
      {
        assert old(SiteMatches(w, blocks, m, n, s));
        SiteOfOther(w.live, w.sites, blocks[n], s);
      }
    }
  }

  lemma SiteOfOther(live: set<CodeBlock>, sites: set<CallLinkInfo>, b: CodeBlock, s: nat)
    requires Owned(live, sites) && b in live && s < |b.callLinkInfos|
    ensures b.callLinkInfos[s] in sites
  {
    assert b.callLinkInfos[s] in b.callLinkInfos;
  }

  /** Any interleaving of the four operations: the objects end up as the model says. */
  method Run(commands: seq<Command>) returns (w: World, blocks: seq<CodeBlock>)
    ensures w.Valid() && Represents(w, blocks, After(commands))
  {
    w := new World();
    blocks := [];
    hide World.Valid, Represents, Do, Sound;
    NothingRepresents(w);
    for n := 0 to |commands|
      invariant w.Valid() && Represents(w, blocks, After(commands[..n]))
      invariant fresh(w) && fresh(w.live) && fresh(w.sites)
    {
      ghost var m := After(commands[..n]);
      EveryRunSound(commands[..n]);
      assert commands[..n + 1][..n] == commands[..n];
      match commands[n]
      case MakeBlock(parameters, calls) => blocks := DoMake(w, blocks, m, parameters, calls);
      case CallAt(caller, site, callee, args) => DoCall(w, blocks, m, caller, site, callee, args);
      case UnlinkBlock(block) => DoUnlink(w, blocks, m, block);
      case FreeNative(id) => DoFree(w, blocks, m, id);
      case DestroyBlock(block) => DoDestroy(w, blocks, m, block);
    }
    assert commands[..|commands|] == commands;
  }

  lemma NothingRepresents(w: World)
    requires w.live == {} && w.sites == {} && w.freed == {}
    ensures Represents(w, [], After([]))
  {
  }
}
