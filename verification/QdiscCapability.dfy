/**
  * The multi-queue capability probe: a write-ahead receipt around a temporary
  * link. Every step may work, fail with or without its effect, or be the last
  * one before a crash; strangers change links and tools before every step.
  */
module QdiscCapability {
  import opened Selection

  type Namespace = nat
  type Boot = nat
  type Place = (Namespace, string)

  /** The alias a probe drew for itself, or any other text. */
  datatype Alias = ProbeAlias(nonce: nat) | OtherAlias(text: string)

  datatype Link = Link(alias: Alias, ifindex: nat)
  type Links = map<Place, Link>

  /** What the fingerprint hashes: the boot, the namespace and the tools, and apart from them the kernel modules. */
  datatype Tools = Tools(programs: string, modules: string)
  datatype Base = Base(boot: Boot, namespace: Namespace, programs: string)
  datatype Fingerprint = Fingerprint(base: Base, modules: string)

  /** pending.json and result.json; the key stands for the digest of the fingerprint. */
  datatype Pending = Pending(name: string, alias: Alias, boot: Boot, namespace: Namespace, ifindex: Option<nat>)
  datatype Proof = Proof(key: Fingerprint, verifiedAt: nat, supported: bool)

  datatype Fault = Works | Fails | FailsLate | CrashesBefore | CrashesAfter

  /** What a stranger does; strangers never carry a probe's alias. */
  datatype Stranger =
    | AddsLink(place: Place, text: string, index: nat) | RemovesLink(place: Place) | Installs(tools: Tools)

  datatype Outcome<T> = Done(value: T) | Error | Crashed

  function After<T, U>(r: Outcome<T>): Outcome<U>
    requires !r.Done?
  {
    if r.Crashed? then Crashed else Error
  }

  // -------------------------------------------------------------------------
  // Strangers' moves.

  function Moved(links: Links, move: Stranger): Links {
    match move
    case AddsLink(place, text, index) => if place in links then links else links[place := Link(OtherAlias(text), index)]
    case RemovesLink(place) => links - {place}
    case Installs(_) => links
  }

  function Disturbed(links: Links, moves: seq<Stranger>): Links {
    if moves == [] then links else Moved(Disturbed(links, moves[..|moves| - 1]), moves[|moves| - 1])
  }

  function Retooled(tools: Tools, moves: seq<Stranger>): Tools {
    if moves == [] then tools
    else
      var last := moves[|moves| - 1];
      if last.Installs? then last.tools else Retooled(tools, moves[..|moves| - 1])
  }

  /** Strangers only change a link by removing it, and never make a probe's. */
  lemma {:induction false} DisturbedLink(links: Links, moves: seq<Stranger>, place: Place)
    ensures place in links && RemovesLink(place) !in moves ==>
              place in Disturbed(links, moves) && Disturbed(links, moves)[place] == links[place]
    ensures RemovesLink(place) in moves && place in Disturbed(links, moves) ==>
              Disturbed(links, moves)[place].alias.OtherAlias?
    ensures place in Disturbed(links, moves) && Disturbed(links, moves)[place].alias.ProbeAlias? ==>
              place in links && Disturbed(links, moves)[place] == links[place]
  {
    if moves != [] {
      DisturbedLink(links, moves[..|moves| - 1], place);
      assert moves == moves[..|moves| - 1] + [moves[|moves| - 1]];
    }
  }

  lemma DisturbedProbes(links: Links, moves: seq<Stranger>)
    ensures var after := Disturbed(links, moves);
            forall place :: place in after && after[place].alias.ProbeAlias? ==>
                place in links && after[place] == links[place]
  {
    var after := Disturbed(links, moves);
    forall place | place in after && after[place].alias.ProbeAlias?
      ensures place in links && after[place] == links[place]
    {
      DisturbedLink(links, moves, place);
    }
  }

  // -------------------------------------------------------------------------
  // The history of all links.

  /**
    * One deletion by name: the link that was checked, the links right after the
    * check, the tick at which strangers moved in between, and the link that went.
    */
  datatype Removal = Removal(place: Place, receipt: Pending, namespace: Namespace, boot: Boot,
                             checked: Link, earlier: Links, tick: nat, link: Link)

  /** Ticks of the strangers, creations and deletions of a probe, reboots: the only ways links change. */
  datatype LinkEvent = Ticked | Created(place: Place, link: Link) | Deleted(removal: Removal) | Rebooted

  function Ticks(log: seq<LinkEvent>): nat {
    if log == [] then 0 else Ticks(log[..|log| - 1]) + if log[|log| - 1].Ticked? then 1 else 0
  }

  function Replay(strangers: nat -> seq<Stranger>, log: seq<LinkEvent>): Links {
    if log == [] then map[]
    else
      var before := Replay(strangers, log[..|log| - 1]);
      match log[|log| - 1]
      case Ticked => Disturbed(before, strangers(Ticks(log[..|log| - 1])))
      case Created(place, link) => before[place := link]
      case Deleted(removal) => before - {removal.place}
      case Rebooted => map[]
  }

  lemma ReplayTick(strangers: nat -> seq<Stranger>, log: seq<LinkEvent>)
    ensures Replay(strangers, log + [Ticked]) == Disturbed(Replay(strangers, log), strangers(Ticks(log)))
  {
    assert (log + [Ticked])[..|log|] == log;
  }

  /** The link checked before a deletion was the receipt's, in its own namespace and boot. */
  predicate CheckedOwn(r: Removal) {
    && r.place == (r.receipt.namespace, r.receipt.name)
    && r.namespace == r.receipt.namespace && r.boot == r.receipt.boot
    && r.receipt.alias.ProbeAlias? && r.checked.alias == r.receipt.alias
    && (r.receipt.ifindex.Some? ==> r.receipt.ifindex.value == r.checked.ifindex)
  }

  ghost predicate RemovalSound(strangers: nat -> seq<Stranger>, r: Removal, before: Links) {
    && CheckedOwn(r)
    && r.place in r.earlier && r.earlier[r.place] == r.checked
    && before == Disturbed(r.earlier, strangers(r.tick))
    && r.place in before && before[r.place] == r.link
  }

  /** The deleted link is the one the receipt records. */
  predicate RemovalOwned(r: Removal) {
    CheckedOwn(r) && r.link == r.checked
  }

  /** A deletion by name takes the recorded link unless a stranger removed it between the check and the command. */
  lemma RemovalOwnedIff(strangers: nat -> seq<Stranger>, r: Removal, before: Links)
    requires RemovalSound(strangers, r, before)
    ensures RemovalOwned(r) <==> RemovesLink(r.place) !in strangers(r.tick)
  {
    DisturbedLink(r.earlier, strangers(r.tick), r.place);
  }

  /** It happens: the link is replaced between the check and the command, and the replacement is deleted. */
  lemma ReplacedLinkIsDeleted()
    ensures var place := (0, "cqm0");
            var own, other := Link(ProbeAlias(1), 5), Link(OtherAlias("lan"), 9);
            var strangers := (k: nat) => if k == 1 then [RemovesLink(place), AddsLink(place, "lan", 9)] else [];
            var receipt := Pending("cqm0", ProbeAlias(1), 0, 0, Some(5));
            var r := Removal(place, receipt, 0, 0, own, map[place := own], 1, other);
            RemovalSound(strangers, r, map[place := other]) && !RemovalOwned(r)
  {
    var place := (0, "cqm0");
    var own := Link(ProbeAlias(1), 5);
    var moves := [RemovesLink(place), AddsLink(place, "lan", 9)];
    var links: Links := map[place := own];
    assert moves[..1] == [RemovesLink(place)] && moves[..1][..0] == [];
    assert Disturbed(links, moves[..1]) == map[];
    assert Disturbed(links, moves) == map[place := Link(OtherAlias("lan"), 9)];
  }

  ghost predicate EventSound(strangers: nat -> seq<Stranger>, log: seq<LinkEvent>, i: nat)
    requires i < |log|
  {
    var before := Replay(strangers, log[..i]);
    && (log[i].Created? ==> log[i].place !in before)
    && (log[i].Deleted? ==>
          RemovalSound(strangers, log[i].removal, before) && FollowsCheck(strangers, log[..i], log[i].removal))
  }

  /** A deletion follows the tick at which strangers moved after the check, and the check saw the links before it. */
  ghost predicate FollowsCheck(strangers: nat -> seq<Stranger>, log: seq<LinkEvent>, r: Removal) {
    && log != [] && log[|log| - 1].Ticked?
    && r.tick == Ticks(log[..|log| - 1]) && r.earlier == Replay(strangers, log[..|log| - 1])
  }

  ghost predicate LogSound(strangers: nat -> seq<Stranger>, log: seq<LinkEvent>) {
    forall i :: 0 <= i < |log| ==> EventSound(strangers, log, i)
  }

  /** Every link that ever vanished or changed was taken by a stranger, by a reboot, or by a checked deletion. */
  lemma VanishedIsAccounted(strangers: nat -> seq<Stranger>, log: seq<LinkEvent>, i: nat, place: Place)
    requires LogSound(strangers, log) && i < |log|
    requires place in Replay(strangers, log[..i])
    requires var after := Replay(strangers, log[..i + 1]);
             place !in after || after[place] != Replay(strangers, log[..i])[place]
    ensures || (log[i].Ticked? && RemovesLink(place) in strangers(Ticks(log[..i])))
            || log[i].Rebooted?
            || (log[i].Deleted? && log[i].removal.place == place && CheckedOwn(log[i].removal)
                && log[i].removal.link == Replay(strangers, log[..i])[place])
  {
    assert EventSound(strangers, log, i);
    assert log[..i + 1][..i] == log[..i];
    if log[i].Ticked? {
      DisturbedLink(Replay(strangers, log[..i]), strangers(Ticks(log[..i])), place);
    }
  }

  lemma LogAppend(strangers: nat -> seq<Stranger>, log: seq<LinkEvent>, e: LinkEvent)
    requires LogSound(strangers, log)
    requires e.Created? ==> e.place !in Replay(strangers, log)
    requires e.Deleted? ==>
               RemovalSound(strangers, e.removal, Replay(strangers, log)) && FollowsCheck(strangers, log, e.removal)
    ensures LogSound(strangers, log + [e])
    ensures Ticks(log + [e]) == Ticks(log) + if e.Ticked? then 1 else 0
  {
    var longer := log + [e];
    assert longer[..|log|] == log;
    forall i | 0 <= i < |longer| ensures EventSound(strangers, longer, i) {
      assert longer[..i] == log[..i];
      if i < |log| { assert EventSound(strangers, log, i); } else { assert log[..i] == log; }
    }
  }

  /** The log grew, and not by a reboot. */
  predicate Extends(before: seq<LinkEvent>, after: seq<LinkEvent>) {
    before <= after && forall i :: |before| <= i < |after| ==> !after[i].Rebooted?
  }

  datatype Act =
    | Probing(nonce: nat, name: string, index: nat, accepts: bool, timestamp: nat)
    | Recovering | Rebooting(boot: Boot) | Entering(namespace: Namespace)

  class Machine {
    var pending: Option<Pending>
    var result: Option<Proof>
    var links: Links
    var boot: Boot
    var namespace: Namespace
    var tools: Tools
    var clock: nat
    const faults: nat -> Fault
    const strangers: nat -> seq<Stranger>
    ghost var log: seq<LinkEvent>

    /** A probe link of this boot is the one the receipt names. */
    predicate LinksNamed()
      reads this
    {
      forall place :: place in links && links[place].alias.ProbeAlias? ==>
        && pending.Some? && pending.value.boot == boot
        && place == (pending.value.namespace, pending.value.name)
        && links[place].alias == pending.value.alias
    }

    ghost predicate Valid()
      reads this
    {
      && (pending.None? || result.None?)
      && LinksNamed()
      && (pending.Some? ==> pending.value.alias.ProbeAlias?)
      && LogSound(strangers, log) && Ticks(log) == clock && links == Replay(strangers, log)
    }

    /** From this step on nothing fails and no stranger interferes. */
    ghost predicate Calm(from: nat) {
      forall k :: from <= k ==> faults(k).Works? && strangers(k) == []
    }

    predicate NoProbeLinks()
      reads this
    {
      forall place :: place in links ==> links[place].alias.OtherAlias?
    }

    constructor (faults: nat -> Fault, strangers: nat -> seq<Stranger>, boot: Boot, namespace: Namespace,
                 tools: Tools)
      ensures Valid() && pending.None? && result.None? && links == map[] && log == []
      ensures this.faults == faults && this.strangers == strangers
      ensures this.boot == boot && this.namespace == namespace && this.tools == tools
    {
      this.faults, this.strangers := faults, strangers;
      this.boot, this.namespace, this.tools := boot, namespace, tools;
      pending, result, links, clock, log := None, None, map[], 0, [];
    }

    /** Strangers move, then the next step meets its fault. */
    method Tick() returns (fault: Fault)
      requires Valid()
      modifies this`links, this`tools, this`clock, this`log
      ensures Valid() && log == old(log) + [Ticked] && clock == old(clock) + 1 && fault == faults(old(clock))
      ensures links == Disturbed(old(links), strangers(old(clock)))
          && tools == Retooled(old(tools), strangers(old(clock)))
      ensures forall place :: place in links && links[place].alias.ProbeAlias? ==>
                place in old(links) && links[place] == old(links)[place]
    {
      DisturbedProbes(links, strangers(clock));
      LogAppend(strangers, log, Ticked);
      ReplayTick(strangers, log);
      links := Disturbed(links, strangers(clock));
      tools := Retooled(tools, strangers(clock));
      fault := faults(clock);
      log := log + [Ticked];
      clock := clock + 1;
    }

    predicate Crash(fault: Fault) { fault.CrashesBefore? || fault.CrashesAfter? }

    /** A crash is reported, and nothing is done after it. */
    ghost predicate CrashIsLast(from: nat, to: nat, crashed: bool) {
      && from <= to && (crashed ==> from < to)
      && forall k :: from <= k < to ==> (Crash(faults(k)) <==> crashed && k == to - 1)
    }

    predicate Effective(fault: Fault) { fault.Works? || fault.FailsLate? || fault.CrashesAfter? }

    function Reported<T>(fault: Fault, value: T): Outcome<T> {
      match fault case Works => Done(value) case Fails => Error case FailsLate => Error case _ => Crashed
    }

    /** Durable removal or replacement of the receipt. */
    method StorePending(value: Option<Pending>) returns (r: Outcome<()>)
      requires Valid()
      requires value.Some? ==> value.value.alias.ProbeAlias? && result.None?
      requires value.None? || value.value.boot != boot ==> NoProbeLinks()
      requires value.Some? && value.value.boot == boot && !NoProbeLinks() ==>
                 pending.Some? && value.value.(ifindex := pending.value.ifindex) == pending.value
      modifies this`pending, this`links, this`tools, this`clock, this`log
      ensures CrashIsLast(old(clock), clock, r.Crashed?)
      ensures Valid() && Extends(old(log), log)
      ensures pending == old(pending) || pending == value
      ensures r.Done? ==> pending == value
      ensures old(NoProbeLinks()) ==> NoProbeLinks()
      ensures Calm(old(clock)) ==> r.Done? && Calm(clock) && links == old(links) && tools == old(tools)
    {
      var fault := Tick();
      if Effective(fault) {
        Announce(value);
      }
      r := Reported(fault, ());
    }

    /** The receipt on disk. */
    method Announce(value: Option<Pending>)
      requires Valid()
      requires value.Some? ==> value.value.alias.ProbeAlias? && result.None?
      requires value.None? || value.value.boot != boot ==> NoProbeLinks()
      requires value.Some? && value.value.boot == boot && !NoProbeLinks() ==>
                 pending.Some? && value.value.(ifindex := pending.value.ifindex) == pending.value
      modifies this`pending
      ensures Valid() && pending == value
    {
      pending := value;
    }

    method StoreResult(value: Option<Proof>) returns (r: Outcome<()>)
      requires Valid()
      requires value.Some? ==> pending.None?
      modifies this`result, this`links, this`tools, this`clock, this`log
      ensures CrashIsLast(old(clock), clock, r.Crashed?)
      ensures Valid() && Extends(old(log), log)
      ensures result == old(result) || result == value
      ensures r.Done? ==> result == value
      ensures old(NoProbeLinks()) ==> NoProbeLinks()
      ensures Calm(old(clock)) ==> r.Done? && Calm(clock) && links == old(links) && tools == old(tools)
    {
      var fault := Tick();
      if Effective(fault) {
        result := value;
      }
      r := Reported(fault, ());
    }

    /** Exclusive creation of the link the receipt announces. */
    method Create(name: string, alias: Alias, index: nat) returns (r: Outcome<()>)
      requires Valid() && NoProbeLinks() && alias.ProbeAlias?
      requires pending == Some(Pending(name, alias, boot, namespace, None))
      modifies this`links, this`tools, this`clock, this`log
      ensures CrashIsLast(old(clock), clock, r.Crashed?)
      ensures Valid() && Extends(old(log), log)
      ensures Calm(old(clock)) ==>
                && Calm(clock) && tools == old(tools) && (r.Done? <==> (namespace, name) !in old(links))
                && (r.Done? ==> links == old(links)[(namespace, name) := Link(alias, index)])
    {
      var fault := Tick();
      var place := (namespace, name);
      if place in links {
        return if Crash(fault) then Crashed else Error;
      }
      if Effective(fault) {
        AddLink(place, Link(alias, index));
      }
      r := Reported(fault, ());
    }

    /** The link that the receipt announces appears. */
    method AddLink(place: Place, link: Link)
      requires Valid() && NoProbeLinks() && place !in links
      requires pending.Some? && pending.value.boot == boot && pending.value.alias == link.alias
      requires place == (pending.value.namespace, pending.value.name)
      modifies this`links, this`log
      ensures Valid() && log == old(log) + [Created(place, link)] && links == old(links)[place := link]
    {
      Change(place, Some(link), Created(place, link));
    }

    /** A change of one link, and its entry in the history. */
    method Change(place: Place, link: Option<Link>, ghost e: LinkEvent)
      requires LogSound(strangers, log) && Ticks(log) == clock && links == Replay(strangers, log)
      requires link.Some? ==> e == Created(place, link.value) && place !in links
      requires link.None? ==> && e.Deleted? && e.removal.place == place && RemovalSound(strangers, e.removal, links)
                              && FollowsCheck(strangers, log, e.removal)
      modifies this`links, this`log
      ensures LogSound(strangers, log) && Ticks(log) == clock && links == Replay(strangers, log)
      ensures log == old(log) + [e]
      ensures links == if link.Some? then old(links)[place := link.value] else old(links) - {place}
    {
      LogAppend(strangers, log, e);
      assert (log + [e])[..|log|] == log;
      links := if link.Some? then links[place := link.value] else links - {place};
      log := log + [e];
    }

    /** The link's index if it carries the alias, None if there is no link of this name. */
    method Identity(name: string, alias: Alias) returns (r: Outcome<Option<nat>>)
      requires Valid()
      modifies this`links, this`tools, this`clock, this`log
      ensures CrashIsLast(old(clock), clock, r.Crashed?)
      ensures Valid() && log == old(log) + [Ticked]
      ensures r.Done? ==>
                r.value == if (namespace, name) in links then Some(links[(namespace, name)].ifindex) else None
      ensures r.Done? && r.value.Some? ==> links[(namespace, name)].alias == alias
      ensures old(NoProbeLinks()) ==> NoProbeLinks()
      ensures Calm(old(clock)) ==> && Calm(clock) && links == old(links) && tools == old(tools)
                                   && (r.Done? <==> (namespace, name) in links ==>
                                       links[(namespace, name)].alias == alias)
    {
      var fault := Tick();
      if !fault.Works? {
        return if Crash(fault) then Crashed else Error;
      }
      if (namespace, name) !in links {
        return Done(None);
      }
      var link := links[(namespace, name)];
      r := if link.alias != alias then Error else Done(Some(link.ifindex));
    }

    /**
      * Deletion in the concrete backend's three steps: check alias and index, delete
      * by name, look whether the name is gone. Strangers may move before each.
      */
    method Delete(name: string, alias: Alias, index: nat) returns (r: Outcome<()>)
      requires Valid() && pending.Some?
      requires pending.value.name == name && pending.value.alias == alias
      requires pending.value.namespace == namespace && pending.value.boot == boot
      requires pending.value.ifindex.Some? ==> pending.value.ifindex.value == index
      modifies this`links, this`tools, this`clock, this`log
      ensures CrashIsLast(old(clock), clock, r.Crashed?)
      ensures Valid() && Extends(old(log), log)
      ensures forall i :: |old(log)| <= i < |log| && log[i].Deleted? ==>
                log[i].removal.receipt == pending.value && log[i].removal.checked == Link(alias, index)
      ensures r.Done? ==> NoProbeLinks()
      ensures Calm(old(clock)) ==>
                && Calm(clock) && tools == old(tools)
                && (r.Done? <==> (namespace, name) in old(links) && old(links)[(namespace, name)] == Link(alias, index))
                && (r.Done? ==> links == old(links) - {(namespace, name)})
    {
      var found := Identity(name, alias);
      if !found.Done? {
        return After(found);
      }
      if found.value != Some(index) {
        return Error;
      }
      r := DeleteByName((namespace, name), Link(alias, index));
    }

    /** The command that deletes whatever has the name, and the look afterwards. */
    method DeleteByName(place: Place, ghost checked: Link) returns (r: Outcome<()>)
      requires Valid() && pending.Some? && place in links && links[place] == checked
      requires place == (pending.value.namespace, pending.value.name) && checked.alias == pending.value.alias
      requires pending.value.namespace == namespace && pending.value.boot == boot
      requires pending.value.ifindex.Some? ==> pending.value.ifindex.value == checked.ifindex
      modifies this`links, this`tools, this`clock, this`log
      ensures CrashIsLast(old(clock), clock, r.Crashed?)
      ensures Valid() && Extends(old(log), log)
      ensures forall i :: |old(log)| <= i < |log| && log[i].Deleted? ==>
                log[i].removal.receipt == pending.value && log[i].removal.checked == checked
      ensures r.Done? ==> NoProbeLinks()
      ensures Calm(old(clock)) ==> r.Done? && Calm(clock) && tools == old(tools) && links == old(links) - {place}
    {
      var deleted := RunDelete(place, checked);
      if !deleted.Done? {
        return deleted;
      }
      var gone := Tick();
      if Crash(gone) {
        return Crashed;
      }
      r := if place in links then Error else Done(());
    }

    /** The command alone. */
    method RunDelete(place: Place, ghost checked: Link) returns (r: Outcome<()>)
      requires Valid() && pending.Some? && place in links && links[place] == checked
      requires place == (pending.value.namespace, pending.value.name) && checked.alias == pending.value.alias
      requires pending.value.namespace == namespace && pending.value.boot == boot
      requires pending.value.ifindex.Some? ==> pending.value.ifindex.value == checked.ifindex
      modifies this`links, this`tools, this`clock, this`log
      ensures CrashIsLast(old(clock), clock, r.Crashed?)
      ensures Valid() && Extends(old(log), log)
      ensures forall i :: |old(log)| <= i < |log| && log[i].Deleted? ==>
                log[i].removal.receipt == pending.value && log[i].removal.checked == checked
      ensures r.Done? ==> place !in links
      ensures Calm(old(clock)) ==> r.Done? && Calm(clock) && tools == old(tools) && links == old(links) - {place}
    {
      ghost var earlier, tick, before := links, clock, log;
      var fault := Tick();
      assert log[..|log| - 1] == before;
      if place !in links {
        return if Crash(fault) then Crashed else Error;
      }
      if Effective(fault) {
        ghost var removal := Removal(place, pending.value, namespace, boot, checked, earlier, tick, links[place]);
        Change(place, None, Deleted(removal));
      }
      r := Reported(fault, ());
    }

    /** The receipt is settled, of another boot, or names a place of this namespace that no other link has taken. */
    predicate Recoverable()
      reads this
    {
      || pending.None? || pending.value.boot != boot
      || (var receipt := pending.value;
          var place := (namespace, receipt.name);
          && receipt.namespace == namespace
          && (place in links ==>
                && links[place].alias == receipt.alias
                && (receipt.ifindex.Some? ==> receipt.ifindex.value == links[place].ifindex)))
    }

    /** What a recovery leaves: the links without the receipt's own. */
    function Settled(): Links
      reads this
    {
      if pending.Some? && pending.value.boot == boot then links - {(namespace, pending.value.name)} else links
    }

    /** Settle the receipt: a link of this boot and namespace is deleted before its receipt. */
    method Recover() returns (r: Outcome<()>)
      requires Valid()
      modifies this`pending, this`links, this`tools, this`clock, this`log
      ensures CrashIsLast(old(clock), clock, r.Crashed?)
      ensures Valid() && Extends(old(log), log)
      ensures pending == old(pending) || pending.None?
      ensures r.Done? ==> pending.None? && NoProbeLinks()
      ensures Calm(old(clock)) ==> && Calm(clock) && tools == old(tools)
                                   && (r.Done? <==> old(Recoverable())) && (r.Done? ==> links == old(Settled()))
    {
      if pending.None? {
        return Done(());
      }
      var receipt := pending.value;
      if receipt.boot != boot {
        r := StorePending(None);
        return;
      }
      if receipt.namespace != namespace {
        return Error;
      }
      var found := Identity(receipt.name, receipt.alias);
      if !found.Done? {
        return After(found);
      }
      if found.value.Some? {
        if receipt.ifindex.Some? && receipt.ifindex.value != found.value.value {
          return Error;
        }
        var deleted := Delete(receipt.name, receipt.alias, found.value.value);
        if !deleted.Done? {
          return deleted;
        }
      }
      r := StorePending(None);
    }

    /** The fingerprint of this boot and namespace with the tools as they are. */
    function Seen(): Fingerprint
      reads this
    {
      Fingerprint(Base(boot, namespace, tools.programs), tools.modules)
    }

    /** Reading the fingerprint. */
    method ReadTools() returns (r: Outcome<Fingerprint>)
      requires Valid()
      modifies this`links, this`tools, this`clock, this`log
      ensures CrashIsLast(old(clock), clock, r.Crashed?)
      ensures Valid() && Extends(old(log), log)
      ensures r.Done? ==> r.value == Seen()
      ensures old(NoProbeLinks()) ==> NoProbeLinks()
      ensures Calm(old(clock)) ==> r.Done? && Calm(clock) && links == old(links) && tools == old(tools)
    {
      var fault := Tick();
      r := Reported(fault, Seen());
    }

    /** Create the announced link, record its index, try the queue discipline. */
    method Measure(name: string, alias: Alias, index: nat, before: Fingerprint, accepts: bool)
      returns (r: Outcome<(bool, Fingerprint)>)
      requires Valid() && NoProbeLinks() && result.None? && alias.ProbeAlias?
      requires pending == Some(Pending(name, alias, boot, namespace, None))
      modifies this`pending, this`links, this`tools, this`clock, this`log
      ensures CrashIsLast(old(clock), clock, r.Crashed?)
      ensures Valid() && Extends(old(log), log)
      ensures pending.Some? && pending.value.(ifindex := None) == old(pending).value
      ensures r.Done? ==> r.value.0 == accepts && r.value.1.base == before.base && r.value.1 == Seen()
      ensures Calm(old(clock)) && before == old(Seen()) ==>
                && Calm(clock) && tools == old(tools) && (r.Done? <==> (namespace, name) !in old(links))
                && (r.Done? ==> r.value.1 == Seen() && pending.value.ifindex == Some(index)
                                && links == old(links)[(namespace, name) := Link(alias, index)])
    {
      var attached := Attach(name, alias, index);
      if !attached.Done? {
        return After(attached);
      }
      var trial := Tick();
      if !trial.Works? {
        return if Crash(trial) then Crashed else Error;
      }
      var observed := ReadTools();
      if !observed.Done? {
        return After(observed);
      }
      r := if observed.value.base != before.base then Error else Done((accepts, observed.value));
    }

    /** Create the announced link and add its index to the receipt. */
    method Attach(name: string, alias: Alias, index: nat) returns (r: Outcome<()>)
      requires Valid() && NoProbeLinks() && result.None? && alias.ProbeAlias?
      requires pending == Some(Pending(name, alias, boot, namespace, None))
      modifies this`pending, this`links, this`tools, this`clock, this`log
      ensures CrashIsLast(old(clock), clock, r.Crashed?)
      ensures Valid() && Extends(old(log), log)
      ensures pending.Some? && pending.value.(ifindex := None) == old(pending).value
      ensures Calm(old(clock)) ==>
                && Calm(clock) && tools == old(tools) && (r.Done? <==> (namespace, name) !in old(links))
                && (r.Done? ==> pending.value.ifindex == Some(index)
                                && links == old(links)[(namespace, name) := Link(alias, index)])
    {
      var created := Create(name, alias, index);
      if !created.Done? {
        return After(created);
      }
      var found := Identity(name, alias);
      if !found.Done? {
        return After(found);
      }
      if found.value.None? {
        return Error;
      }
      r := StorePending(Some(pending.value.(ifindex := found.value)));
    }

    /**
      * The probe. Whatever fails and wherever it stops, the machine stays valid;
      * support is published only after the link and its receipt are gone; and
      * undisturbed it succeeds exactly when the old receipt can be settled and the
      * new name is then free.
      */
    method Probe(nonce: nat, name: string, index: nat, accepts: bool, timestamp: nat) returns (r: Outcome<Proof>)
      requires Valid()
      modifies this`pending, this`result, this`links, this`tools, this`clock, this`log
      ensures CrashIsLast(old(clock), clock, r.Crashed?)
      ensures Valid() && Extends(old(log), log)
      ensures result.Some? ==>
                result == old(result) || (NoProbeLinks() && result.value.verifiedAt == timestamp && Here())
      ensures r.Done? ==> && pending.None? && result == Some(r.value) && NoProbeLinks()
                          && r.value.verifiedAt == timestamp && r.value.supported == accepts
      ensures Calm(old(clock)) ==>
                && (r.Done? <==> old(Recoverable()) && (namespace, name) !in old(Settled()))
                && (r.Done? ==> r.value == Proof(old(Seen()), timestamp, accepts) && links == old(Settled()))
    {
      var recovered := Recover();
      if !recovered.Done? {
        return After(recovered);
      }
      var cleared := StoreResult(None);
      if !cleared.Done? {
        return After(cleared);
      }
      var before := ReadTools();
      if !before.Done? {
        return After(before);
      }
      r := ProbeFresh(ProbeAlias(nonce), name, index, before.value, accepts, timestamp);
    }

    /** From a settled machine: announce, measure, settle again, and publish if the tools stayed the same. */
    method ProbeFresh(alias: Alias, name: string, index: nat, before: Fingerprint, accepts: bool, timestamp: nat)
      returns (r: Outcome<Proof>)
      requires Valid() && pending.None? && result.None? && NoProbeLinks() && alias.ProbeAlias?
      modifies this`pending, this`result, this`links, this`tools, this`clock, this`log
      ensures CrashIsLast(old(clock), clock, r.Crashed?)
      ensures Valid() && Extends(old(log), log)
      ensures result.Some? ==> NoProbeLinks() && result.value.verifiedAt == timestamp && Here()
      ensures r.Done? ==> && pending.None? && result == Some(r.value) && NoProbeLinks()
                          && r.value.verifiedAt == timestamp && r.value.supported == accepts
      ensures Calm(old(clock)) && before == old(Seen()) ==>
                && (r.Done? <==> (namespace, name) !in old(links))
                && (r.Done? ==> r.value == Proof(old(Seen()), timestamp, accepts) && links == old(links))
    {
      var announced := StorePending(Some(Pending(name, alias, boot, namespace, None)));
      if !announced.Done? {
        return After(announced);
      }
      var measured := Measure(name, alias, index, before, accepts);
      if measured.Crashed? {
        return Crashed;
      }
      var recovered := Recover();
      if !recovered.Done? || !measured.Done? {
        return if recovered.Crashed? then Crashed else Error;
      }
      r := Publish(measured.value.1, accepts, timestamp);
    }

    /** Publish the result if the tools are still those it was observed with. */
    method Publish(observed: Fingerprint, accepts: bool, timestamp: nat) returns (r: Outcome<Proof>)
      requires Valid() && pending.None? && result.None? && NoProbeLinks()
      modifies this`result, this`links, this`tools, this`clock, this`log
      ensures CrashIsLast(old(clock), clock, r.Crashed?)
      ensures Valid() && Extends(old(log), log) && NoProbeLinks()
      ensures result == None || (result == Some(Proof(observed, timestamp, accepts)) && Here())
      ensures r.Done? ==> r.value == Proof(observed, timestamp, accepts) && result == Some(r.value)
      ensures Calm(old(clock)) ==> links == old(links) && (r.Done? <==> observed == old(Seen()))
    {
      var after := ReadTools();
      if !after.Done? {
        return After(after);
      }
      if after.value != observed {
        return Error;
      }
      var proof := Proof(after.value, timestamp, accepts);
      var published := StoreResult(Some(proof));
      r := if published.Done? then Done(proof) else After(published);
    }

    /** The stored result was observed in this boot and namespace. */
    predicate Here()
      reads this
    {
      result.Some? && result.value.key.base.boot == boot && result.value.key.base.namespace == namespace
    }

    /** Read-only authorization: no pending cleanup, positive, not from the future, and for this very fingerprint. */
    method Cached(timestamp: nat) returns (r: bool)
      requires Valid()
      ensures r <==> && pending.None? && result.Some? && result.value.supported
                     && result.value.verifiedAt <= timestamp && result.value.key == Seen()
      ensures r ==> NoProbeLinks() && Here()
    {
      if pending.Some? {
        return false;
      }
      if result.None? {
        return false;
      }
      r := result.value.supported && result.value.verifiedAt <= timestamp && result.value.key == Seen();
    }

    /** A reboot keeps the files and loses every link. */
    method Reboot(newBoot: Boot)
      requires Valid()
      modifies this`links, this`boot, this`log
      ensures Valid() && links == map[] && boot == newBoot && log == old(log) + [Rebooted]
    {
      LogAppend(strangers, log, Rebooted);
      assert (log + [Rebooted])[..|log|] == log;
      links, boot, log := map[], newBoot, log + [Rebooted];
    }

    /** The daemon restarts in another network namespace; links stay where they are. */
    method EnterNamespace(other: Namespace)
      requires Valid()
      modifies this`namespace
      ensures Valid() && namespace == other
    {
      namespace := other;
    }

    /** There is at most one probe link, and the receipt names it. */
    lemma ProbeLinkIsUnique(a: Place, b: Place)
      requires Valid() && a in links && b in links && links[a].alias.ProbeAlias? && links[b].alias.ProbeAlias?
      ensures a == b && pending.Some? && result.None? && a == (pending.value.namespace, pending.value.name)
    {}

    /** Any history of probes, stand-alone recoveries, reboots and namespace changes, each stopping anywhere. */
    method Live(acts: seq<Act>)
      requires Valid()
      modifies this
      ensures Valid() && old(log) <= log
      ensures (forall i :: 0 <= i < |acts| ==> !acts[i].Rebooting?) ==> Extends(old(log), log)
      ensures (forall i :: 0 <= i < |acts| ==> !acts[i].Probing?) ==> result == old(result)
      ensures boot == old(boot) || Rebooting(boot) in acts
    {
      for i := 0 to |acts|
        invariant Valid() && old(log) <= log
        invariant (forall j :: 0 <= j < i ==> !acts[j].Rebooting?) ==> Extends(old(log), log)
        invariant (forall j :: 0 <= j < i ==> !acts[j].Probing?) ==> result == old(result)
        invariant boot == old(boot) || Rebooting(boot) in acts
      {
        match acts[i] {
          case Probing(nonce, name, index, accepts, timestamp) =>
            var probed := Probe(nonce, name, index, accepts, timestamp);
          case Recovering =>
            var recovered := Recover();
          case Rebooting(newBoot) => Reboot(newBoot);
          case Entering(other) => EnterNamespace(other);
        }
      }
    }

    /**
      * After a reboot no stored result authorizes anything before the next probe,
      * whatever happens until then, as long as boots do not come back.
      */
    method RebootRevokes(newBoot: Boot, acts: seq<Act>, timestamp: nat) returns (r: bool)
      requires Valid() && forall i :: 0 <= i < |acts| ==> !acts[i].Probing?
      requires result.Some? ==>
                 result.value.key.base.boot != newBoot && Rebooting(result.value.key.base.boot) !in acts
      modifies this
      ensures Valid() && !r
    {
      Reboot(newBoot);
      Live(acts);
      r := Cached(timestamp);
    }
  }
}
