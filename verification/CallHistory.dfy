/**
  What call sites are linked to, told from the commands of a run alone: which blocks
  were made and are still there, and how often a site was called.
 */
module CallHistory {
  import opened CallLinks

  // The history of a run ---------------------------------------------------------------

  /** The number of blocks made. */
  function Made(commands: seq<Command>): nat {
    if commands == [] then 0
    else Made(commands[..|commands| - 1]) + if commands[|commands| - 1].MakeBlock? then 1 else 0
  }

  /** The command that made block `b`. */
  function Making(commands: seq<Command>, b: nat): (c: Command)
    requires b < Made(commands)
    ensures c.MakeBlock?
  {
    var n := |commands| - 1;
    if b < Made(commands[..n]) then Making(commands[..n], b) else commands[n]
  }

  /** Block `b` was made and has not been destroyed since. */
  predicate Alive(commands: seq<Command>, b: nat) {
    if commands == [] then false
    else
      var n := |commands| - 1;
      var c := commands[n];
      (Alive(commands[..n], b) && c != DestroyBlock(b)) || (c.MakeBlock? && b == Made(commands[..n]))
  }

  /** Behind `commands` the call is one of a live site, of something that is still there. */
  predicate Possible(commands: seq<Command>, call: Command) {
    && call.CallAt? && call.caller < Made(commands) && Alive(commands, call.caller)
    && call.site < Making(commands, call.caller).calls
    && match call.callee
       case Nowhere => false
       case Block(b) => Alive(commands, b)
       case Native(f) => FreeNative(f) !in commands
  }

  predicate CallsSite(c: Command, s: Site) {
    c.CallAt? && (c.caller, c.site) == s
  }

  /** How often site `s` was called. */
  function CallsAt(commands: seq<Command>, s: Site): nat {
    if commands == [] then 0
    else
      var n := |commands| - 1;
      CallsAt(commands[..n], s)
      + if CallsSite(commands[n], s) && Possible(commands[..n], commands[n]) then 1 else 0
  }

  /** Command `k` is the second call at `s`, and it is of `t`. */
  predicate SecondCall(commands: seq<Command>, k: nat, s: Site, t: Target<nat>)
    requires k < |commands|
  {
    && CallsSite(commands[k], s) && Possible(commands[..k], commands[k])
    && commands[k].callee == t && CallsAt(commands[..k], s) == 1
  }

  predicate Unlinks(c: Command, b: nat) {
    c == UnlinkBlock(b) || c == DestroyBlock(b)
  }

  /**
    The second call at `s` was of `t`; if `t` is a block it got as many arguments as
    that has parameters, and the block was neither unlinked nor destroyed since.
   */
  ghost predicate LinkedBy(commands: seq<Command>, k: nat, s: Site, t: Target<nat>)
    requires k < |commands|
  {
    && SecondCall(commands, k, s, t)
    && (t.Block? ==>
          && t.block < Made(commands[..k]) && commands[k].args == Making(commands[..k], t.block).parameters
          && forall j | k < j < |commands| :: !Unlinks(commands[j], t.block))
  }

  // The reference model agrees -----------------------------------------------------------

  lemma {:induction false} AliveWasMade(commands: seq<Command>, b: nat)
    ensures Alive(commands, b) ==> b < Made(commands)
  {
    if commands != [] {
      AliveWasMade(commands[..|commands| - 1], b);
    }
  }

  lemma {:induction false} NotCalledBefore(commands: seq<Command>, s: Site)
    requires s.0 >= Made(commands)
    ensures CallsAt(commands, s) == 0
  {
    if commands != [] {
      NotCalledBefore(commands[..|commands| - 1], s);
    }
  }

  ghost predicate BlocksAgree(commands: seq<Command>, m: Model) {
    && |m.parameters| == |m.calls| == Made(commands)
    && (forall b | 0 <= b < Made(commands) ::
          m.parameters[b] == Making(commands, b).parameters && m.calls[b] == Making(commands, b).calls)
    && (forall b: nat :: b in m.live <==> Alive(commands, b))
    && (forall f: nat :: f in m.freed <==> FreeNative(f) in commands)
  }

  lemma {:induction false} ModelHasBlocks(commands: seq<Command>)
    ensures BlocksAgree(commands, After(commands))
  {
    if commands != [] {
      var n := |commands| - 1;
      ModelHasBlocks(commands[..n]);
      BlocksStep(commands, After(commands[..n]));
    }
  }

  lemma BlocksStep(commands: seq<Command>, m: Model)
    requires commands != [] && BlocksAgree(commands[..|commands| - 1], m)
    ensures BlocksAgree(commands, Do(m, commands[|commands| - 1]))
  {
    hide CanCall, Called, Without;
    var n := |commands| - 1;
    var c, r := commands[n], Do(m, commands[n]);
    assert commands == commands[..n] + [c];
    forall b: nat
      ensures b in r.live <==> Alive(commands, b)
    {
      AliveWasMade(commands[..n], b);
    }
    forall b | 0 <= b < Made(commands)
      ensures b < |r.parameters| == |r.calls|
      ensures r.parameters[b] == Making(commands, b).parameters && r.calls[b] == Making(commands, b).calls
    {
      if b < Made(commands[..n]) {
        assert Making(commands, b) == Making(commands[..n], b);
      }
    }
  }

  lemma PossibleAgrees(commands: seq<Command>, m: Model, c: Command)
    requires BlocksAgree(commands, m) && c.CallAt?
    ensures Possible(commands, c) <==> CanCall(m, c.caller, c.site, c.callee)
    ensures Possible(commands, c) && c.callee.Block? ==>
              && c.callee.block < Made(commands) == |m.parameters|
              && m.parameters[c.callee.block] == Making(commands, c.callee.block).parameters
  {
    hide Made, Making, Alive;
    if c.callee.Block? {
      AliveWasMade(commands, c.callee.block);
    }
  }

  /** How far a live site has got is how often it was called. */
  ghost predicate SiteAgrees(commands: seq<Command>, m: Model, s: Site) {
    match CallsAt(commands, s)
    case 0 => m.StateOf(s) == New
    case 1 => m.StateOf(s) == Seen
    case _ => m.StateOf(s).Virtual?
  }

  lemma {:induction false} SiteCalled(commands: seq<Command>, s: Site)
    requires Alive(commands, s.0)
    ensures SiteAgrees(commands, After(commands), s)
  {
    hide Do, CanCall, Possible, Sound;
    var n := |commands| - 1;
    var m := After(commands[..n]);
    ModelHasBlocks(commands[..n]);
    EveryRunSound(commands[..n]);
    if Alive(commands[..n], s.0) {
      SiteCalled(commands[..n], s);
      SiteStep(commands, m, s);
    } else {
      NotCalledBefore(commands[..n], s);
      AliveWasMade(commands[..n], s.0);
      NewSite(m, commands[n], s);
    }
  }

  lemma NewSite(m: Model, c: Command, s: Site)
    requires Sound(m) && c.MakeBlock? && s.0 == |m.parameters|
    ensures Do(m, c).StateOf(s) == New
  {
  }

  lemma SiteStep(commands: seq<Command>, m: Model, s: Site)
    requires commands != [] && BlocksAgree(commands[..|commands| - 1], m)
    requires Alive(commands, s.0) && Alive(commands[..|commands| - 1], s.0)
    requires SiteAgrees(commands[..|commands| - 1], m, s)
    ensures SiteAgrees(commands, Do(m, commands[|commands| - 1]), s)
  {
    hide Possible, CanCall, BlocksAgree;
    var n := |commands| - 1;
    if commands[n].CallAt? {
      PossibleAgrees(commands[..n], m, commands[n]);
    } else {
      AliveMoves(m, commands[n], s);
      StillAlive(commands, s.0);
    }
  }

  lemma StillAlive(commands: seq<Command>, b: nat)
    requires commands != [] && Alive(commands, b) && Alive(commands[..|commands| - 1], b)
    ensures commands[|commands| - 1] != DestroyBlock(b)
  {
    AliveWasMade(commands[..|commands| - 1], b);
  }

  /** What a command other than a call does to a site whose block stays. */
  lemma AliveMoves(m: Model, c: Command, s: Site)
    requires !c.CallAt? && c != DestroyBlock(s.0)
    ensures var after := Do(m, c).StateOf(s);
            after == m.StateOf(s) || (m.StateOf(s).Virtual? && m.StateOf(s).target.Block? && after == Virtual(Nowhere))
    ensures forall b: nat | m.StateOf(s) == Virtual(Block(b)) && b in m.live ::
              Do(m, c).StateOf(s) == if Unlinks(c, b) then Virtual(Nowhere) else m.StateOf(s)
  {
  }

  // What a site is linked to -----------------------------------------------------------------

  lemma EarlierSecondCall(commands: seq<Command>, k: nat, s: Site, t: Target<nat>)
    requires k < |commands| - 1
    ensures LinkedBy(commands, k, s, t)
            <==> && LinkedBy(commands[..|commands| - 1], k, s, t)
                 && !(t.Block? && Unlinks(commands[|commands| - 1], t.block))
  {
    hide Possible, CallsAt, Made, Making, Unlinks;
    var n := |commands| - 1;
    assert commands[..n][..k] == commands[..k];
    assert forall j | 0 <= j < n :: commands[..n][j] == commands[j];
  }

  ghost predicate IsLinkedTo(commands: seq<Command>, s: Site, t: Target<nat>) {
    exists k :: 0 <= k < |commands| && LinkedBy(commands, k, s, t)
  }

  lemma LinkedStep(commands: seq<Command>, s: Site, t: Target<nat>)
    requires commands != []
    ensures var n := |commands| - 1;
            IsLinkedTo(commands, s, t)
            <==> || (IsLinkedTo(commands[..n], s, t) && !(t.Block? && Unlinks(commands[n], t.block)))
                 || LinkedBy(commands, n, s, t)
  {
    hide LinkedBy, Unlinks;
    var n := |commands| - 1;
    forall k | 0 <= k < n
      ensures LinkedBy(commands, k, s, t)
              <==> LinkedBy(commands[..n], k, s, t) && !(t.Block? && Unlinks(commands[n], t.block))
    {
      EarlierSecondCall(commands, k, s, t);
    }
  }

  /**
    In every run a live site compares with a block or a native function if and only
    if its second call was of it, with as many arguments as the block has
    parameters, and the block has been neither unlinked nor destroyed since.
   */
  lemma {:induction false} LinkedExactly(commands: seq<Command>, s: Site, t: Target<nat>)
    requires Alive(commands, s.0) && t != Nowhere
    ensures After(commands).StateOf(s) == Virtual(t) <==> IsLinkedTo(commands, s, t)
  {
    hide Do, CanCall, Possible, Sound, LinkedBy, IsLinkedTo, BlocksAgree, Unlinks;
    var n := |commands| - 1;
    var m := After(commands[..n]);
    LinkedStep(commands, s, t);
    ModelHasBlocks(commands[..n]);
    EveryRunSound(commands[..n]);
    if Alive(commands[..n], s.0) {
      LinkedExactly(commands[..n], s, t);
      SiteCalled(commands[..n], s);
      TargetStep(commands, m, s, t);
    } else {
      NotLinkedYet(commands, s, t);
      AliveWasMade(commands[..n], s.0);
      MadeAgrees(commands[..n], m);
      NewSite(m, commands[n], s);
    }
  }

  lemma MadeAgrees(commands: seq<Command>, m: Model)
    requires BlocksAgree(commands, m)
    ensures |m.parameters| == Made(commands)
  {
  }

  lemma TargetStep(commands: seq<Command>, m: Model, s: Site, t: Target<nat>)
    requires commands != [] && BlocksAgree(commands[..|commands| - 1], m) && t != Nowhere && Sound(m)
    requires Alive(commands, s.0) && Alive(commands[..|commands| - 1], s.0)
    requires SiteAgrees(commands[..|commands| - 1], m, s)
    ensures var n := |commands| - 1;
            Do(m, commands[n]).StateOf(s) == Virtual(t)
            <==> || (m.StateOf(s) == Virtual(t) && !(t.Block? && Unlinks(commands[n], t.block)))
                 || LinkedBy(commands, n, s, t)
  {
    hide Possible, CanCall, BlocksAgree;
    var n := |commands| - 1;
    if commands[n].CallAt? {
      PossibleAgrees(commands[..n], m, commands[n]);
    } else {
      AliveMoves(m, commands[n], s);
      StillAlive(commands, s.0);
    }
  }

  lemma NotLinkedYet(commands: seq<Command>, s: Site, t: Target<nat>)
    requires commands != [] && Alive(commands, s.0) && !Alive(commands[..|commands| - 1], s.0)
    ensures !IsLinkedTo(commands, s, t)
  {
    hide Possible;
    var n := |commands| - 1;
    forall k | 0 <= k < |commands|
      ensures !LinkedBy(commands, k, s, t)
    {
      if LinkedBy(commands, k, s, t) {
        assert k < n ==> commands[..n][..k] == commands[..k];
        MadeGrows(commands[..n], k);
        NotCalledBefore(commands[..k], s);
      }
    }
  }

  lemma {:induction false} MadeGrows(commands: seq<Command>, k: nat)
    requires k <= |commands|
    ensures Made(commands[..k]) <= Made(commands)
  {
    if k < |commands| {
      assert commands[..|commands| - 1][..k] == commands[..k];
      MadeGrows(commands[..|commands| - 1], k);
    } else {
      assert commands[..k] == commands;
    }
  }

  /** A link to a native function stays, whether or not the function has been freed since. */
  lemma NativeLinkStays(commands: seq<Command>, s: Site, f: nat)
    requires Alive(commands, s.0)
    ensures After(commands).StateOf(s) == Virtual(Native(f))
            <==> exists k :: 0 <= k < |commands| && SecondCall(commands, k, s, Native(f))
  {
    hide SecondCall;
    LinkedExactly(commands, s, Native(f));
    forall k | 0 <= k < |commands|
      ensures LinkedBy(commands, k, s, Native(f)) <==> SecondCall(commands, k, s, Native(f))
    {
    }
  }
}
