/**
  * The permanent probe lease as a state machine over its steps: any number of
  * owners acquire, recover, crash, run producers and retire against the shared
  * slots, while strangers create and delete tables and tasks come and go.
  *
  * A lock is the fact that some owner is in a phase that holds the slot, so it
  * disappears with a crash. What survives a crash is the receipt, the kernel
  * table and the child processes.
  */
module ProbeLease {
  import opened Selection

  type Gid = nat
  type Generation = nat

  /** `Unreadable` is any nonempty text that is not an exact receipt for its slot. */
  datatype Receipt = Empty | Exact(generation: Generation) | Unreadable

  datatype Comment = OwnerOf(generation: Generation) | Stranger(tag: nat)
  datatype KernelTable = KernelTable(comment: Comment, handle: nat)

  /** A process carrying a group; `generation` is None for one that no owner started. */
  datatype Task = Task(id: nat, gid: Gid, generation: Option<Generation>)

  datatype CleanStep = Listing | Deleting(handle: nat) | Confirming

  /** `attested` is the handle a retiring owner insists on; None while recovering another's slot. */
  datatype Phase =
    | Scanning
    | Locked(gid: Gid)
    | Cleaning(gid: Gid, target: Generation, attested: Option<nat>, step: CleanStep)
    | Settled(gid: Gid, target: Generation, retiring: bool)
    | Ready(gid: Gid)
    | Installing(gid: Gid)
    | Attesting(gid: Gid)
    | Live(gid: Gid, handle: nat, producers: set<nat>, unverifiedStop: bool, held: bool)

  datatype Owner = Owner(generation: Generation, phase: Phase)

  /**
    * `issued` remembers the name and comment every handle was given, `tokens`
    * the producers admitted and never confirmed stopped, `used` every generation drawn.
    */
  datatype State = State(
    owners: map<nat, Owner>,
    receipts: map<Gid, Receipt>,
    tables: map<Gid, KernelTable>,
    tasks: set<Task>,
    issued: map<nat, (Gid, Comment)>,
    tokens: set<(Generation, nat)>,
    used: set<Generation>)
  {
    function At(gid: Gid): Receipt { if gid in receipts then receipts[gid] else Empty }
  }

  predicate HoldsSlot(phase: Phase) { !phase.Scanning? }

  predicate SlotFree(s: State, gid: Gid) {
    forall a :: a in s.owners && HoldsSlot(s.owners[a].phase) ==> s.owners[a].phase.gid != gid
  }

  predicate GroupUnused(s: State, gid: Gid) { forall task :: task in s.tasks ==> task.gid != gid }

  // -------------------------------------------------------------------------
  // Steps.

  datatype Move =
    | Lock(slot: Gid)
    | FindEmpty
    | FindStale
    | List
    | ListAbsent
    | Delete
    | Confirm
    | ClearStale
    | Publish
    | PublishPartially
    | Install(handle: nat)
    | Attest
    | Admit(producer: nat)
    | ConfirmStopped(producer: nat)
    | DropProducer(producer: nat)
    | DropOwner
    | BeginRetire
    | FinishRetire
    | SkipSlot
    | Unlock
    | Crash
    | Spawn(producer: nat, task: nat)

  datatype Event =
    | Fork(parent: Task, child: nat)
    | Exit(task: Task)
    | StrangerTask(task: Task)
    | StrangerCreates(gid: Gid, tag: nat, handle: nat)
    | StrangerDeletes(gid: Gid)

  datatype Action = Begin(owner: nat, generation: Generation) | Step(owner: nat, move: Move) | Outside(event: Event)

  predicate MoveEnabled(s: State, o: Owner, move: Move) {
    var phase := o.phase;
    match move
    case Lock(gid) => phase.Scanning? && SlotFree(s, gid)
    case FindEmpty => phase.Locked? && s.At(phase.gid).Empty?
    case FindStale =>
      && phase.Locked? && s.At(phase.gid).Exact? && s.At(phase.gid).generation != o.generation
      && GroupUnused(s, phase.gid)
    case List =>
      && phase.Cleaning? && phase.step.Listing? && phase.gid in s.tables
      && s.tables[phase.gid].comment == OwnerOf(phase.target)
      && (phase.attested.Some? ==> s.tables[phase.gid].handle == phase.attested.value)
    case ListAbsent => phase.Cleaning? && phase.step.Listing? && phase.gid !in s.tables
    case Delete =>
      phase.Cleaning? && phase.step.Deleting? && exists g :: g in s.tables && s.tables[g].handle == phase.step.handle
    case Confirm => phase.Cleaning? && phase.step.Confirming? && phase.gid !in s.tables
    case ClearStale => phase.Settled? && !phase.retiring
    case Publish => phase.Ready? && GroupUnused(s, phase.gid)
    case PublishPartially => phase.Ready? && GroupUnused(s, phase.gid)
    case Install(handle) => phase.Installing? && phase.gid !in s.tables && handle !in s.issued
    case Attest => phase.Attesting? && phase.gid in s.tables && s.tables[phase.gid].comment == OwnerOf(o.generation)
    case Admit(producer) =>
      phase.Live? && phase.held && !phase.unverifiedStop && (o.generation, producer) !in s.tokens
    case ConfirmStopped(producer) => phase.Live? && producer in phase.producers
    case DropProducer(producer) => phase.Live? && producer in phase.producers
    case DropOwner => phase.Live? && phase.held
    case BeginRetire =>
      phase.Live? && phase.held && phase.producers == {} && !phase.unverifiedStop && GroupUnused(s, phase.gid)
    case FinishRetire => phase.Settled? && phase.retiring && GroupUnused(s, phase.gid)
    case SkipSlot => phase.Locked? || phase.Ready? || (phase.Cleaning? && phase.attested.None?)
    case Unlock => HoldsSlot(phase) && (phase.Live? ==> phase.producers == {})
    case Crash => true
    case Spawn(producer, _) => phase.Live? && producer in phase.producers
  }

  function In(s: State, a: nat, o: Owner, phase: Phase): State { s.(owners := s.owners[a := o.(phase := phase)]) }

  function Gone(s: State, a: nat): State { s.(owners := s.owners - {a}) }

  function ApplyMove(s: State, a: nat, o: Owner, move: Move): State
    requires MoveEnabled(s, o, move)
  {
    var phase := o.phase;
    match move
    case Lock(gid) => In(s, a, o, Locked(gid))
    case FindEmpty => In(s, a, o, Ready(phase.gid))
    case FindStale => In(s, a, o, Cleaning(phase.gid, s.At(phase.gid).generation, None, Listing))
    case List => In(s, a, o, phase.(step := Deleting(s.tables[phase.gid].handle)))
    case ListAbsent => In(s, a, o, Settled(phase.gid, phase.target, phase.attested.Some?))
    case Delete =>
      In(s.(tables := map g | g in s.tables && s.tables[g].handle != phase.step.handle :: s.tables[g]),
         a, o, phase.(step := Confirming))
    case Confirm => In(s, a, o, Settled(phase.gid, phase.target, phase.attested.Some?))
    case ClearStale => In(s.(receipts := s.receipts[phase.gid := Empty]), a, o, Ready(phase.gid))
    case Publish => In(s.(receipts := s.receipts[phase.gid := Exact(o.generation)]), a, o, Installing(phase.gid))
    case PublishPartially => Gone(s.(receipts := s.receipts[phase.gid := Unreadable]), a)
    case Install(handle) =>
      In(s.(tables := s.tables[phase.gid := KernelTable(OwnerOf(o.generation), handle)],
            issued := s.issued[handle := (phase.gid, OwnerOf(o.generation))]), a, o, Attesting(phase.gid))
    case Attest => In(s, a, o, Live(phase.gid, s.tables[phase.gid].handle, {}, false, true))
    case Admit(producer) =>
      In(s.(tokens := s.tokens + {(o.generation, producer)}), a, o, phase.(producers := phase.producers + {producer}))
    case ConfirmStopped(producer) =>
      In(s.(tokens := s.tokens - {(o.generation, producer)}), a, o, phase.(producers := phase.producers - {producer}))
    case DropProducer(producer) =>
      In(s, a, o, phase.(producers := phase.producers - {producer}, unverifiedStop := true))
    case DropOwner => In(s, a, o, phase.(held := false))
    case BeginRetire => In(s, a, o, Cleaning(phase.gid, o.generation, Some(phase.handle), Listing))
    case FinishRetire => Gone(s.(receipts := s.receipts[phase.gid := Empty]), a)
    case SkipSlot => In(s, a, o, Scanning)
    case Unlock => Gone(s, a)
    case Crash => Gone(s, a)
    case Spawn(_, task) => In(s.(tasks := s.tasks + {Task(task, phase.gid, Some(o.generation))}), a, o, phase)
  }

  predicate Enabled(s: State, action: Action) {
    match action
    case Begin(a, generation) => a !in s.owners && generation !in s.used
    case Step(a, move) => a in s.owners && MoveEnabled(s, s.owners[a], move)
    case Outside(Fork(parent, _)) => parent in s.tasks
    case Outside(Exit(task)) => task in s.tasks
    case Outside(StrangerTask(task)) => task.generation.None?
    case Outside(StrangerCreates(gid, _, handle)) => gid !in s.tables && handle !in s.issued
    case Outside(StrangerDeletes(gid)) => gid in s.tables
  }

  function Apply(s: State, action: Action): State
    requires Enabled(s, action)
  {
    match action
    case Begin(a, generation) => s.(owners := s.owners[a := Owner(generation, Scanning)], used := s.used + {generation})
    case Step(a, move) => ApplyMove(s, a, s.owners[a], move)
    case Outside(Fork(parent, child)) => s.(tasks := s.tasks + {parent.(id := child)})
    case Outside(Exit(task)) => s.(tasks := s.tasks - {task})
    case Outside(StrangerTask(task)) => s.(tasks := s.tasks + {task})
    case Outside(StrangerCreates(gid, tag, handle)) =>
      s.(tables := s.tables[gid := KernelTable(Stranger(tag), handle)],
         issued := s.issued[handle := (gid, Stranger(tag))])
    case Outside(StrangerDeletes(gid)) => s.(tables := s.tables - {gid})
  }

  /** A boot starts with an empty lease directory; strangers' tables may already exist. */
  predicate Initial(s: State) {
    && s.owners == map[] && s.receipts == map[] && s.tokens == {} && s.used == {}
    && (forall task :: task in s.tasks ==> task.generation.None?)
    && forall gid :: gid in s.tables ==>
         s.tables[gid].comment.Stranger? && s.tables[gid].handle in s.issued
         && s.issued[s.tables[gid].handle] == (gid, s.tables[gid].comment)
  }

  // -------------------------------------------------------------------------
  // The invariant.

  predicate Exclusive(s: State) {
    && (forall a, b :: a in s.owners && b in s.owners && a != b
                       && HoldsSlot(s.owners[a].phase) && HoldsSlot(s.owners[b].phase) ==>
          s.owners[a].phase.gid != s.owners[b].phase.gid)
    && (forall a, b :: a in s.owners && b in s.owners && a != b ==> s.owners[a].generation != s.owners[b].generation)
  }

  /** A table commented for a generation exists only while its slot's receipt names that generation. */
  predicate TablesFenced(s: State) {
    forall gid :: gid in s.tables ==>
      && s.tables[gid].handle in s.issued
      && s.issued[s.tables[gid].handle] == (gid, s.tables[gid].comment)
      && (s.tables[gid].comment.OwnerOf? ==> s.At(gid) == Exact(s.tables[gid].comment.generation))
  }

  /** So does a process started for a generation. */
  predicate TasksFenced(s: State) {
    forall task :: task in s.tasks && task.generation.Some? ==> s.At(task.gid) == Exact(task.generation.value)
  }

  predicate GenerationsUsed(s: State) {
    && (forall a :: a in s.owners ==> s.owners[a].generation in s.used)
    && (forall gid :: gid in s.receipts && s.receipts[gid].Exact? ==> s.receipts[gid].generation in s.used)
    && (forall token :: token in s.tokens ==> token.0 in s.used)
  }

  /** The generation is in no receipt yet. */
  predicate Unpublished(s: State, generation: Generation) {
    forall gid :: gid in s.receipts ==> s.receipts[gid] != Exact(generation)
  }

  predicate NoTokens(s: State, generation: Generation) { forall token :: token in s.tokens ==> token.0 != generation }

  predicate NoOwnedTasks(s: State, gid: Gid) {
    forall task :: task in s.tasks && task.gid == gid ==> task.generation.None?
  }

  /** The handle was given to this slot's table under the generation's comment. */
  predicate Given(s: State, handle: nat, gid: Gid, generation: Generation) {
    handle in s.issued && s.issued[handle] == (gid, OwnerOf(generation))
  }

  predicate OwnerSound(s: State, o: Owner) {
    match o.phase
    case Scanning => Unpublished(s, o.generation) && NoTokens(s, o.generation)
    case Locked(_) => Unpublished(s, o.generation) && NoTokens(s, o.generation)
    case Ready(gid) => Unpublished(s, o.generation) && NoTokens(s, o.generation) && s.At(gid).Empty?
    case Cleaning(gid, target, attested, step) =>
      && s.At(gid) == Exact(target) && NoOwnedTasks(s, gid) && NoTokens(s, o.generation)
      && (if attested.Some? then target == o.generation && Given(s, attested.value, gid, target)
          else Unpublished(s, o.generation))
      && (step.Deleting? ==> Given(s, step.handle, gid, target))
      && (step.Deleting? && attested.Some? ==> step.handle == attested.value)
    case Settled(gid, target, retiring) =>
      && s.At(gid) == Exact(target) && NoOwnedTasks(s, gid) && NoTokens(s, o.generation)
      && (gid in s.tables ==> s.tables[gid].comment.Stranger?)
      && (if retiring then target == o.generation else Unpublished(s, o.generation))
    case Installing(gid) => s.At(gid) == Exact(o.generation) && NoTokens(s, o.generation)
    case Attesting(gid) => s.At(gid) == Exact(o.generation) && NoTokens(s, o.generation)
    case Live(gid, handle, producers, unverifiedStop, _) =>
      && s.At(gid) == Exact(o.generation) && Given(s, handle, gid, o.generation)
      && (!unverifiedStop ==> forall token :: token in s.tokens && token.0 == o.generation ==> token.1 in producers)
  }

  predicate OwnersSound(s: State) { forall a :: a in s.owners ==> OwnerSound(s, s.owners[a]) }

  predicate Inv(s: State) { Exclusive(s) && TablesFenced(s) && TasksFenced(s) && GenerationsUsed(s) && OwnersSound(s) }

  lemma InitialInv(s: State)
    requires Initial(s)
    ensures Inv(s)
  {}

  /** What one owner relies on: its slot, its generation and the handles it has seen. */
  ghost predicate Undisturbed(s: State, s': State, o: Owner) {
    && (forall h :: h in s.issued ==> h in s'.issued && s'.issued[h] == s.issued[h])
    && (forall token :: token in s'.tokens && token.0 == o.generation ==> token in s.tokens)
    && (Unpublished(s, o.generation) ==> Unpublished(s', o.generation))
    && (HoldsSlot(o.phase) ==>
          var gid := o.phase.gid;
          && s'.At(gid) == s.At(gid)
          && (NoOwnedTasks(s, gid) ==> NoOwnedTasks(s', gid))
          && (gid in s'.tables ==>
                s'.tables[gid].comment.Stranger? || (gid in s.tables && s'.tables[gid] == s.tables[gid])))
  }

  lemma SoundIfUndisturbed(s: State, s': State, o: Owner)
    requires OwnerSound(s, o) && Undisturbed(s, s', o)
    ensures OwnerSound(s', o)
  {}

  /** A step of owner `a` that keeps the fences and disturbs nobody else keeps the invariant. */
  lemma StepKeepsInv(s: State, s': State, a: nat)
    requires Inv(s) && a in s.owners
    requires s'.owners.Keys == s.owners.Keys || s'.owners.Keys == s.owners.Keys - {a}
    requires forall b :: b in s'.owners && b != a ==> s'.owners[b] == s.owners[b] && Undisturbed(s, s', s.owners[b])
    requires a in s'.owners ==>
               && s'.owners[a].generation == s.owners[a].generation
               && OwnerSound(s', s'.owners[a])
               && (HoldsSlot(s'.owners[a].phase) ==>
                     SlotFree(s, s'.owners[a].phase.gid)
                     || (HoldsSlot(s.owners[a].phase) && s'.owners[a].phase.gid == s.owners[a].phase.gid))
    requires TablesFenced(s') && TasksFenced(s') && GenerationsUsed(s')
    ensures Inv(s')
  {
    forall b | b in s'.owners ensures OwnerSound(s', s'.owners[b]) {
      if b != a {
        SoundIfUndisturbed(s, s', s.owners[b]);
      }
    }
  }

  lemma SameWorldUndisturbed(s: State, s': State, o: Owner)
    requires s'.receipts == s.receipts && s'.tables == s.tables && s'.tasks == s.tasks
    requires s'.issued == s.issued && s'.tokens == s.tokens
    ensures Undisturbed(s, s', o)
  {}

  lemma PhaseChange(s: State, a: nat, phase: Phase)
    requires Inv(s) && a in s.owners && OwnerSound(s, s.owners[a].(phase := phase))
    requires HoldsSlot(phase) ==>
               SlotFree(s, phase.gid) || (HoldsSlot(s.owners[a].phase) && phase.gid == s.owners[a].phase.gid)
    ensures Inv(In(s, a, s.owners[a], phase))
  {
    var s' := In(s, a, s.owners[a], phase);
    forall o: Owner ensures Undisturbed(s, s', o) { SameWorldUndisturbed(s, s', o); }
    SoundIfUndisturbed(s, s', s'.owners[a]);
    StepKeepsInv(s, s', a);
  }

  lemma Leaving(s: State, a: nat)
    requires Inv(s) && a in s.owners
    ensures Inv(Gone(s, a))
  {
    var s' := Gone(s, a);
    forall o: Owner ensures Undisturbed(s, s', o) { SameWorldUndisturbed(s, s', o); }
    StepKeepsInv(s, s', a);
  }

  /** Moves of an owner that is taking a slot change nothing but its own phase. */
  lemma AcquirePhases(s: State, a: nat, move: Move)
    requires Inv(s) && Enabled(s, Step(a, move))
    requires move.Lock? || move.FindEmpty? || move.FindStale? || move.Attest? || move.SkipSlot?
    ensures Inv(ApplyMove(s, a, s.owners[a], move))
  {
    var o := s.owners[a];
    assert OwnerSound(s, o);
    match move
    case Lock(gid) => PhaseChange(s, a, Locked(gid));
    case SkipSlot => PhaseChange(s, a, Scanning);
    case FindEmpty => PhaseChange(s, a, Ready(o.phase.gid));
    case FindStale =>
      PhaseChange(s, a, Cleaning(o.phase.gid, s.At(o.phase.gid).generation, None, Listing));
    case Attest => PhaseChange(s, a, Live(o.phase.gid, s.tables[o.phase.gid].handle, {}, false, true));
  }

  /** Reading the table during cleanup. */
  lemma CleaningPhases(s: State, a: nat, move: Move)
    requires Inv(s) && Enabled(s, Step(a, move))
    requires move.List? || move.ListAbsent? || move.Confirm?
    ensures Inv(ApplyMove(s, a, s.owners[a], move))
  {
    var o := s.owners[a];
    assert OwnerSound(s, o);
    match move
    case List => PhaseChange(s, a, o.phase.(step := Deleting(s.tables[o.phase.gid].handle)));
    case ListAbsent => PhaseChange(s, a, Settled(o.phase.gid, o.phase.target, o.phase.attested.Some?));
    case Confirm => PhaseChange(s, a, Settled(o.phase.gid, o.phase.target, o.phase.attested.Some?));
  }

  lemma LivePhases(s: State, a: nat, move: Move)
    requires Inv(s) && Enabled(s, Step(a, move))
    requires move.DropProducer? || move.DropOwner? || move.BeginRetire? || move.Unlock? || move.Crash?
    ensures Inv(ApplyMove(s, a, s.owners[a], move))
  {
    var o := s.owners[a];
    assert OwnerSound(s, o);
    match move
    case DropProducer(producer) =>
      PhaseChange(s, a, o.phase.(producers := o.phase.producers - {producer}, unverifiedStop := true));
    case DropOwner => PhaseChange(s, a, o.phase.(held := false));
    case BeginRetire => PhaseChange(s, a, Cleaning(o.phase.gid, o.generation, Some(o.phase.handle), Listing));
    case Unlock => Leaving(s, a);
    case Crash => Leaving(s, a);
  }

  lemma ReceiptUndisturbed(s: State, s': State, gid: Gid, receipt: Receipt, a: nat, b: nat)
    requires Inv(s) && a in s.owners && b in s.owners && a != b
    requires HoldsSlot(s.owners[a].phase) && s.owners[a].phase.gid == gid
    requires s'.receipts == s.receipts[gid := receipt]
    requires receipt.Exact? ==> receipt.generation == s.owners[a].generation
    requires s'.tables == s.tables && s'.tasks == s.tasks && s'.issued == s.issued && s'.tokens == s.tokens
    ensures Undisturbed(s, s', s.owners[b])
  {}

  /** Rewriting the receipt of one's own slot, with nothing left there that the old one fenced. */
  lemma ReceiptWrite(s: State, s': State, a: nat, receipt: Receipt)
    requires Inv(s) && a in s.owners && HoldsSlot(s.owners[a].phase)
    requires var gid := s.owners[a].phase.gid;
             && s'.receipts == s.receipts[gid := receipt]
             && NoOwnedTasks(s, gid) && (gid in s.tables ==> s.tables[gid].comment.Stranger?)
    requires receipt.Exact? ==> receipt.generation == s.owners[a].generation
    requires s'.tables == s.tables && s'.tasks == s.tasks && s'.issued == s.issued && s'.tokens == s.tokens
    requires s'.used == s.used
    requires s'.owners == s.owners - {a}
             || (a in s'.owners && s'.owners == s.owners[a := s'.owners[a]]
                 && s'.owners[a].generation == s.owners[a].generation && OwnerSound(s', s'.owners[a])
                 && HoldsSlot(s'.owners[a].phase) && s'.owners[a].phase.gid == s.owners[a].phase.gid)
    ensures Inv(s')
  {
    forall b | b in s'.owners && b != a ensures Undisturbed(s, s', s.owners[b]) {
      ReceiptUndisturbed(s, s', s.owners[a].phase.gid, receipt, a, b);
    }
    StepKeepsInv(s, s', a);
  }

  lemma ReceiptMoves(s: State, a: nat, move: Move)
    requires Inv(s) && Enabled(s, Step(a, move))
    requires move.ClearStale? || move.Publish? || move.PublishPartially? || move.FinishRetire?
    ensures Inv(ApplyMove(s, a, s.owners[a], move))
  {
    var o := s.owners[a];
    var s' := ApplyMove(s, a, o, move);
    assert OwnerSound(s, o);
    match move
    case ClearStale => ReceiptWrite(s, s', a, Empty);
    case Publish => ReceiptWrite(s, s', a, Exact(o.generation));
    case PublishPartially => ReceiptWrite(s, s', a, Unreadable);
    case FinishRetire => ReceiptWrite(s, s', a, Empty);
  }

  lemma DeleteKeepsInv(s: State, a: nat)
    requires Inv(s) && Enabled(s, Step(a, Delete))
    ensures Inv(ApplyMove(s, a, s.owners[a], Delete))
  {
    var o := s.owners[a];
    var s' := ApplyMove(s, a, o, Delete);
    assert OwnerSound(s, o);
    forall other: Owner ensures Undisturbed(s, s', other) {}
    SoundIfUndisturbed(s, s', o);
    StepKeepsInv(s, s', a);
  }

  lemma InstallUndisturbed(s: State, a: nat, handle: nat, b: nat)
    requires Exclusive(s) && Enabled(s, Step(a, Install(handle))) && b in s.owners && b != a
    ensures Undisturbed(s, ApplyMove(s, a, s.owners[a], Install(handle)), s.owners[b])
  {}

  lemma InstallKeepsInv(s: State, a: nat, handle: nat)
    requires Inv(s) && Enabled(s, Step(a, Install(handle)))
    ensures Inv(ApplyMove(s, a, s.owners[a], Install(handle)))
  {
    var s' := ApplyMove(s, a, s.owners[a], Install(handle));
    assert OwnerSound(s, s.owners[a]);
    forall b | b in s.owners && b != a ensures Undisturbed(s, s', s.owners[b]) { InstallUndisturbed(s, a, handle, b); }
    assert TablesFenced(s');
    StepKeepsInv(s, s', a);
  }

  lemma TokenUndisturbed(s: State, a: nat, move: Move, b: nat)
    requires Exclusive(s) && Enabled(s, Step(a, move)) && b in s.owners && b != a
    requires move.Admit? || move.ConfirmStopped? || move.Spawn?
    ensures Undisturbed(s, ApplyMove(s, a, s.owners[a], move), s.owners[b])
  {}

  lemma TokenMoveSound(s: State, a: nat, move: Move)
    requires Enabled(s, Step(a, move)) && OwnerSound(s, s.owners[a])
    requires move.Admit? || move.ConfirmStopped? || move.Spawn?
    ensures var s' := ApplyMove(s, a, s.owners[a], move); OwnerSound(s', s'.owners[a])
  {}

  lemma ProducerFences(s: State, a: nat, move: Move)
    requires Inv(s) && Enabled(s, Step(a, move)) && (move.Admit? || move.ConfirmStopped? || move.Spawn?)
    ensures var s' := ApplyMove(s, a, s.owners[a], move); TablesFenced(s') && TasksFenced(s') && GenerationsUsed(s')
  {
    assert OwnerSound(s, s.owners[a]);
  }

  lemma ProducerMoves(s: State, a: nat, move: Move)
    requires Inv(s) && Enabled(s, Step(a, move)) && (move.Admit? || move.ConfirmStopped? || move.Spawn?)
    ensures Inv(ApplyMove(s, a, s.owners[a], move))
  {
    var s' := ApplyMove(s, a, s.owners[a], move);
    assert OwnerSound(s, s.owners[a]);
    TokenMoveSound(s, a, move);
    ProducerFences(s, a, move);
    OthersUndisturbed(s, a, move);
    ProducerFrame(s, a, move);
    StepKeepsInv(s, s', a);
  }

  lemma ProducerFrame(s: State, a: nat, move: Move)
    requires Enabled(s, Step(a, move)) && (move.Admit? || move.ConfirmStopped? || move.Spawn?)
    ensures var s' := ApplyMove(s, a, s.owners[a], move);
            && s'.owners.Keys == s.owners.Keys && a in s'.owners
            && s'.owners[a].generation == s.owners[a].generation
            && HoldsSlot(s'.owners[a].phase) && HoldsSlot(s.owners[a].phase)
            && s'.owners[a].phase.gid == s.owners[a].phase.gid
            && forall b :: b in s'.owners && b != a ==> s'.owners[b] == s.owners[b]
  {}

  lemma OthersUndisturbed(s: State, a: nat, move: Move)
    requires Exclusive(s) && Enabled(s, Step(a, move)) && (move.Admit? || move.ConfirmStopped? || move.Spawn?)
    ensures forall b :: b in s.owners && b != a ==> Undisturbed(s, ApplyMove(s, a, s.owners[a], move), s.owners[b])
  {
    forall b | b in s.owners && b != a
      ensures Undisturbed(s, ApplyMove(s, a, s.owners[a], move), s.owners[b])
    {
      TokenUndisturbed(s, a, move, b);
    }
  }

  lemma MoveKeepsInv(s: State, a: nat, move: Move)
    requires Inv(s) && Enabled(s, Step(a, move))
    ensures Inv(ApplyMove(s, a, s.owners[a], move))
  {
    if move.Lock? || move.FindEmpty? || move.FindStale? || move.Attest? || move.SkipSlot? {
      AcquirePhases(s, a, move);
    } else if move.List? || move.ListAbsent? || move.Confirm? {
      CleaningPhases(s, a, move);
    } else if move.ClearStale? || move.Publish? || move.PublishPartially? || move.FinishRetire? {
      ReceiptMoves(s, a, move);
    } else if move.Admit? || move.ConfirmStopped? || move.Spawn? {
      ProducerMoves(s, a, move);
    } else if move.Delete? {
      DeleteKeepsInv(s, a);
    } else if move.Install? {
      InstallKeepsInv(s, a, move.handle);
    } else {
      LivePhases(s, a, move);
    }
  }

  lemma OutsideUndisturbed(s: State, event: Event, o: Owner)
    requires Enabled(s, Outside(event))
    ensures Undisturbed(s, Apply(s, Outside(event)), o)
  {}

  lemma OutsideKeepsInv(s: State, event: Event)
    requires Inv(s) && Enabled(s, Outside(event))
    ensures Inv(Apply(s, Outside(event)))
  {
    var s' := Apply(s, Outside(event));
    forall a | a in s.owners ensures OwnerSound(s', s.owners[a]) {
      OutsideUndisturbed(s, event, s.owners[a]);
      SoundIfUndisturbed(s, s', s.owners[a]);
    }
  }

  lemma BeginKeepsInv(s: State, a: nat, generation: Generation)
    requires Inv(s) && Enabled(s, Begin(a, generation))
    ensures Inv(Apply(s, Begin(a, generation)))
  {
    var s' := Apply(s, Begin(a, generation));
    forall b | b in s.owners ensures OwnerSound(s', s.owners[b]) {
      SameWorldUndisturbed(s, s', s.owners[b]);
      SoundIfUndisturbed(s, s', s.owners[b]);
    }
  }

  // -------------------------------------------------------------------------
  // Whole runs.

  ghost predicate Runs(s: State, actions: seq<Action>, s': State)
    decreases |actions|
  {
    if actions == [] then s' == s
    else Enabled(s, actions[0]) && Runs(Apply(s, actions[0]), actions[1..], s')
  }

  lemma ActionKeepsInv(s: State, action: Action)
    requires Inv(s) && Enabled(s, action)
    ensures Inv(Apply(s, action))
  {
    match action
    case Begin(a, generation) => BeginKeepsInv(s, a, generation);
    case Step(a, move) => MoveKeepsInv(s, a, move);
    case Outside(event) => OutsideKeepsInv(s, event);
  }

  lemma {:induction false} RunKeepsInv(s: State, actions: seq<Action>, s': State)
    requires Inv(s) && Runs(s, actions, s')
    ensures Inv(s')
    decreases |actions|
  {
    if actions != [] {
      ActionKeepsInv(s, actions[0]);
      RunKeepsInv(Apply(s, actions[0]), actions[1..], s');
    }
  }

  /** The owner has published its receipt and not yet let go of the slot. */
  predicate Owns(o: Owner) {
    o.phase.Installing? || o.phase.Attesting? || o.phase.Live?
  }

  /**
    * Lease safety over every interleaving from boot: no two owners share a
    * group, a live owner stands on a table created under its own comment, and a
    * generation's table and processes exist only behind a receipt that names the
    * generation.
    */
  lemma LeaseSafety(s: State, actions: seq<Action>, s': State)
    requires Initial(s) && Runs(s, actions, s')
    ensures forall a, b :: a in s'.owners && b in s'.owners && a != b && Owns(s'.owners[a]) && Owns(s'.owners[b]) ==>
              s'.owners[a].phase.gid != s'.owners[b].phase.gid
    ensures forall a :: a in s'.owners && Owns(s'.owners[a]) ==>
        s'.At(s'.owners[a].phase.gid) == Exact(s'.owners[a].generation)
    ensures forall a :: a in s'.owners && s'.owners[a].phase.Live? ==>
              Given(s', s'.owners[a].phase.handle, s'.owners[a].phase.gid, s'.owners[a].generation)
    ensures forall gid :: gid in s'.tables && s'.tables[gid].comment.OwnerOf? ==>
              s'.At(gid) == Exact(s'.tables[gid].comment.generation)
    ensures forall task :: task in s'.tasks && task.generation.Some? ==> s'.At(task.gid) == Exact(task.generation.value)
  {
    InitialInv(s);
    RunKeepsInv(s, actions, s');
    forall a | a in s'.owners && Owns(s'.owners[a])
      ensures s'.At(s'.owners[a].phase.gid) == Exact(s'.owners[a].generation)
      ensures s'.owners[a].phase.Live? ==>
                Given(s', s'.owners[a].phase.handle, s'.owners[a].phase.gid, s'.owners[a].generation)
    {
      assert OwnerSound(s', s'.owners[a]);
    }
  }

  /** A producer is admitted only by the live, held owner of its generation, on its own table and receipt. */
  lemma AdmissionIsOwned(s: State, action: Action, token: (Generation, nat))
    requires Inv(s) && Enabled(s, action) && token !in s.tokens && token in Apply(s, action).tokens
    ensures action == Step(action.owner, Admit(token.1)) && action.owner in s.owners
    ensures var o := s.owners[action.owner];
            && o.generation == token.0 && o.phase.Live? && o.phase.held && !o.phase.unverifiedStop
            && s.At(o.phase.gid) == Exact(o.generation) && Given(s, o.phase.handle, o.phase.gid, o.generation)
  {
    TokenAdded(s, action, token);
    assert OwnerSound(s, s.owners[action.owner]);
  }

  lemma TokenAdded(s: State, action: Action, token: (Generation, nat))
    requires Enabled(s, action) && token !in s.tokens && token in Apply(s, action).tokens
    ensures action.Step? && action.move == Admit(token.1) && s.owners[action.owner].generation == token.0
  {}

  /** A process of a generation is started only for an admitted producer, or forked by another one of it. */
  lemma ProcessIsOwned(s: State, action: Action, task: Task)
    requires Enabled(s, action) && task !in s.tasks && task in Apply(s, action).tasks && task.generation.Some?
    ensures || (action.Outside? && exists parent :: parent in s.tasks && parent == task.(id := parent.id))
            || (action.Step? && action.move.Spawn?
                && var o := s.owners[action.owner];
                   && o.phase.Live? && o.phase.gid == task.gid && task.generation == Some(o.generation)
                   && action.move.producer in o.phase.producers)
  {
    if action.Outside? && action.event.Fork? {
      var parent := action.event.parent;
      assert parent in s.tasks && parent == task.(id := parent.id);
    } else if action.Step? {
      ProcessSpawned(s, action.owner, action.move, task);
    }
  }

  lemma ProcessSpawned(s: State, a: nat, move: Move, task: Task)
    requires Enabled(s, Step(a, move)) && task !in s.tasks && task in ApplyMove(s, a, s.owners[a], move).tasks
    ensures move.Spawn?
    ensures var o := s.owners[a];
            && o.phase.Live? && o.phase.gid == task.gid && task.generation == Some(o.generation)
            && move.producer in o.phase.producers
  {}

  /**
    * The life of a receipt. It changes only by the owner that holds the slot: an
    * empty one is published, whole or in part, while no process has the group; a
    * readable one is emptied only after its generation's processes and table are gone.
    */
  lemma ReceiptChanges(s: State, action: Action, gid: Gid)
    requires Inv(s) && Enabled(s, action) && Apply(s, action).At(gid) != s.At(gid)
    ensures action.Step? && HoldsSlot(s.owners[action.owner].phase) && s.owners[action.owner].phase.gid == gid
    ensures var o, after := s.owners[action.owner], Apply(s, action).At(gid);
            || (s.At(gid).Empty? && GroupUnused(s, gid) && after in {Exact(o.generation), Unreadable})
            || (s.At(gid).Exact? && after.Empty? && NoOwnedTasks(s, gid)
                && (gid in s.tables ==> s.tables[gid].comment.Stranger?))
  {
    ReceiptWritten(s, action, gid);
    assert OwnerSound(s, s.owners[action.owner]);
  }

  lemma ReceiptWritten(s: State, action: Action, gid: Gid)
    requires Enabled(s, action) && Apply(s, action).At(gid) != s.At(gid)
    ensures action.Step?
    ensures var o, move := s.owners[action.owner], action.move;
            && HoldsSlot(o.phase) && o.phase.gid == gid
            && (move.Publish? || move.PublishPartially? || move.ClearStale? || move.FinishRetire?)
  {}

  lemma OtherMovesKeepTables(s: State, a: nat, move: Move, gid: Gid)
    requires Enabled(s, Step(a, move)) && gid in s.tables && !move.Delete?
    ensures var s' := ApplyMove(s, a, s.owners[a], move); gid in s'.tables && s'.tables[gid] == s.tables[gid]
  {}

  /** An owner deletes at most the one table it holds the slot of, and only under the exact recorded comment. */
  lemma OnlyOwnedTablesDeleted(s: State, a: nat, move: Move, gid: Gid)
    requires Inv(s) && Enabled(s, Step(a, move))
    requires gid in s.tables
    requires var s' := Apply(s, Step(a, move)); gid !in s'.tables || s'.tables[gid] != s.tables[gid]
    ensures move.Delete? && gid == s.owners[a].phase.gid
    ensures s.tables[gid].comment == OwnerOf(s.owners[a].phase.target)
    ensures s.At(gid) == Exact(s.owners[a].phase.target)
    ensures s.owners[a].phase.attested.Some? ==>
              s.owners[a].phase.target == s.owners[a].generation
              && s.tables[gid].handle == s.owners[a].phase.attested.value
  {
    if !move.Delete? {
      OtherMovesKeepTables(s, a, move, gid);
    }
    assert OwnerSound(s, s.owners[a]);
  }

  /**
    * Retirement succeeds only when no producer is outstanding or unconfirmed, no
    * process of the generation is left and its table is gone; and it empties the
    * receipt that fenced them.
    */
  lemma RetirementIsQuiet(s: State, a: nat)
    requires Inv(s) && Enabled(s, Step(a, FinishRetire))
    ensures var o := s.owners[a];
            && s.At(o.phase.gid) == Exact(o.generation)
            && NoTokens(s, o.generation)
            && (forall task :: task in s.tasks ==> task.generation != Some(o.generation) || task.gid != o.phase.gid)
            && (o.phase.gid in s.tables ==> s.tables[o.phase.gid].comment.Stranger?)
            && Apply(s, Step(a, FinishRetire)).At(o.phase.gid).Empty?
  {
    assert OwnerSound(s, s.owners[a]);
  }

  /** Whoever holds the generation is live in this slot after an unverified stop, and has admitted nobody since. */
  ghost predicate Poisoned(s: State, generation: Generation, gid: Gid, tokens: set<(Generation, nat)>) {
    && generation in s.used
    && (forall b :: b in s.owners && s.owners[b].generation == generation ==>
          s.owners[b].phase.Live? && s.owners[b].phase.unverifiedStop && s.owners[b].phase.gid == gid)
    && (forall token :: token in s.tokens && token.0 == generation ==> token in tokens)
  }

  lemma PoisonStays(s: State, action: Action, generation: Generation, gid: Gid, tokens: set<(Generation, nat)>)
    requires Enabled(s, action) && Poisoned(s, generation, gid, tokens)
    ensures Poisoned(Apply(s, action), generation, gid, tokens)
  {
    match action
    case Begin(_, _) =>
    case Step(a, move) =>
      if s.owners[a].generation == generation { PoisonedMove(s, a, move); } else { OtherMove(s, a, move); }
    case Outside(_) =>
  }

  lemma PoisonedMove(s: State, a: nat, move: Move)
    requires Enabled(s, Step(a, move)) && s.owners[a].phase.Live? && s.owners[a].phase.unverifiedStop
    ensures var s' := ApplyMove(s, a, s.owners[a], move);
            && s'.tokens <= s.tokens && s'.used == s.used
            && (forall b :: b in s'.owners && b != a ==> b in s.owners && s'.owners[b] == s.owners[b])
            && (a in s'.owners ==>
                  && s'.owners[a].generation == s.owners[a].generation && s'.owners[a].phase.Live?
                  && s'.owners[a].phase.unverifiedStop && s'.owners[a].phase.gid == s.owners[a].phase.gid)
  {}

  lemma OtherMove(s: State, a: nat, move: Move)
    requires Enabled(s, Step(a, move))
    ensures var s' := ApplyMove(s, a, s.owners[a], move);
            && s'.used == s.used
            && (forall token :: token in s'.tokens && token.0 != s.owners[a].generation ==> token in s.tokens)
            && (forall b :: b in s'.owners && b != a ==> b in s.owners && s'.owners[b] == s.owners[b])
            && (a in s'.owners ==> s'.owners[a].generation == s.owners[a].generation)
  {}

  lemma {:induction false} PoisonLasts(s: State, actions: seq<Action>, s': State, generation: Generation, gid: Gid,
                                       tokens: set<(Generation, nat)>)
    requires Runs(s, actions, s') && Poisoned(s, generation, gid, tokens)
    ensures Poisoned(s', generation, gid, tokens)
    decreases |actions|
  {
    if actions != [] {
      PoisonStays(s, actions[0], generation, gid, tokens);
      PoisonLasts(Apply(s, actions[0]), actions[1..], s', generation, gid, tokens);
    }
  }

  /**
    * After an unverified stop, over every run: no producer of the generation is
    * ever admitted again; and while its owner lives it never retires, and its
    * receipt stays exact.
    */
  lemma UnverifiedStopIsSticky(s: State, actions: seq<Action>, s': State, a: nat)
    requires Inv(s) && Runs(s, actions, s')
    requires a in s.owners && s.owners[a].phase.Live? && s.owners[a].phase.unverifiedStop
    ensures forall token :: token in s'.tokens && token.0 == s.owners[a].generation ==> token in s.tokens
    ensures forall b :: b in s'.owners && s'.owners[b].generation == s.owners[a].generation ==>
              && s'.owners[b].phase.Live? && s'.owners[b].phase.unverifiedStop
              && s'.owners[b].phase.gid == s.owners[a].phase.gid
              && s'.At(s.owners[a].phase.gid) == Exact(s.owners[a].generation)
  {
    PoisonLasts(s, actions, s', s.owners[a].generation, s.owners[a].phase.gid, s.tokens);
    RunKeepsInv(s, actions, s');
    forall b | b in s'.owners && s'.owners[b].generation == s.owners[a].generation
      ensures s'.At(s.owners[a].phase.gid) == Exact(s.owners[a].generation)
    {
      assert OwnerSound(s', s'.owners[b]);
    }
  }

  /** Taking over a slot: the previous generation's table and processes are gone before the receipt is cleared. */
  lemma RecoveryIsSettled(s: State, a: nat)
    requires Inv(s) && Enabled(s, Step(a, ClearStale))
    ensures var gid := s.owners[a].phase.gid;
            && NoOwnedTasks(s, gid)
            && (gid in s.tables ==> s.tables[gid].comment.Stranger?)
            && s.At(gid) == Exact(s.owners[a].phase.target)
            && s.owners[a].phase.target != s.owners[a].generation
  {
    assert OwnerSound(s, s.owners[a]);
  }

  /** Unknown ownership is never cleared: no step of any owner rewrites an unreadable receipt. */
  lemma UnreadableReceiptStays(s: State, a: nat, move: Move, gid: Gid)
    requires Inv(s) && Enabled(s, Step(a, move)) && s.At(gid).Unreadable?
    ensures ApplyMove(s, a, s.owners[a], move).At(gid).Unreadable?
  {
    assert OwnerSound(s, s.owners[a]);
  }

  /** The slot of a dead owner can be taken over: no lock, no task, and no table but the recorded generation's. */
  predicate Abandoned(s: State, gid: Gid) {
    && SlotFree(s, gid) && s.At(gid).Exact? && GroupUnused(s, gid)
    && (gid in s.tables ==> s.tables[gid].comment == OwnerOf(s.At(gid).generation))
  }

  /** A fresh owner settles an abandoned slot and publishes itself there. */
  lemma AbandonedSlotIsRecovered(s: State, gid: Gid, a: nat, generation: Generation)
    returns (actions: seq<Action>, s': State)
    requires Inv(s) && Abandoned(s, gid) && a !in s.owners && generation !in s.used
    ensures Runs(s, actions, s') && s'.At(gid) == Exact(generation)
    ensures a in s'.owners && s'.owners[a] == Owner(generation, Installing(gid)) && gid !in s'.tables
  {
    var front, s3 := TakeStaleSlot(s, gid, a, generation);
    var cleanup: seq<Action>;
    var s4: State;
    if gid in s.tables {
      cleanup, s4 := SettleByDelete(s3, gid, a, s.At(gid).generation);
    } else {
      cleanup := [Step(a, ListAbsent)];
      s4 := Apply(s3, Step(a, ListAbsent));
      RunsOne(s3, cleanup[0], s4);
    }
    RunsConcat(s, front, s3, cleanup, s4);
    var back;
    back, s' := PublishSettled(s4, gid, a);
    RunsConcat(s, front + cleanup, s4, back, s');
    actions := front + cleanup + back;
  }

  lemma TakeStaleSlot(s: State, gid: Gid, a: nat, generation: Generation) returns (actions: seq<Action>, s': State)
    requires Inv(s) && Abandoned(s, gid) && a !in s.owners && generation !in s.used
    ensures Runs(s, actions, s') && s'.tables == s.tables && s'.receipts == s.receipts && s'.tasks == s.tasks
        && TablesFenced(s')
    ensures s'.owners == s.owners[a := Owner(generation, Cleaning(gid, s.At(gid).generation, None, Listing))]
  {
    var s1 := Apply(s, Begin(a, generation));
    var s2 := Apply(s1, Step(a, Lock(gid)));
    assert s.receipts[gid].generation in s.used;
    s' := Apply(s2, Step(a, FindStale));
    RunsThree(s, Begin(a, generation), s1, Step(a, Lock(gid)), s2, Step(a, FindStale), s');
    actions := [Begin(a, generation), Step(a, Lock(gid)), Step(a, FindStale)];
  }

  lemma PublishSettled(s: State, gid: Gid, a: nat) returns (actions: seq<Action>, s': State)
    requires a in s.owners && s.owners[a].phase.Settled? && !s.owners[a].phase.retiring && s.owners[a].phase.gid == gid
    requires GroupUnused(s, gid)
    ensures Runs(s, actions, s') && s'.tables == s.tables
    ensures s'.At(gid) == Exact(s.owners[a].generation)
    ensures s'.owners == s.owners[a := s.owners[a].(phase := Installing(gid))]
  {
    var s1 := Apply(s, Step(a, ClearStale));
    s' := Apply(s1, Step(a, Publish));
    RunsOne(s, Step(a, ClearStale), s1);
    RunsOne(s1, Step(a, Publish), s');
    RunsConcat(s, [Step(a, ClearStale)], s1, [Step(a, Publish)], s');
    actions := [Step(a, ClearStale)] + [Step(a, Publish)];
  }

  lemma SettleByDelete(s: State, gid: Gid, a: nat, target: Generation) returns (actions: seq<Action>, s': State)
    requires TablesFenced(s) && a in s.owners && s.owners[a].phase == Cleaning(gid, target, None, Listing)
    requires gid in s.tables && s.tables[gid].comment == OwnerOf(target)
    ensures Runs(s, actions, s') && s'.receipts == s.receipts && s'.tasks == s.tasks && gid !in s'.tables
    ensures s'.owners == s.owners[a := s.owners[a].(phase := Settled(gid, target, false))]
  {
    var s1 := Apply(s, Step(a, List));
    var s2 := Apply(s1, Step(a, Delete));
    s' := Apply(s2, Step(a, Confirm));
    RunsThree(s, Step(a, List), s1, Step(a, Delete), s2, Step(a, Confirm), s');
    actions := [Step(a, List), Step(a, Delete), Step(a, Confirm)];
  }

  lemma RunsOne(s: State, action: Action, s': State)
    requires Enabled(s, action) && s' == Apply(s, action)
    ensures Runs(s, [action], s')
  {
    assert [action][1..] == [];
  }

  lemma {:induction false} RunsConcat(s: State, first: seq<Action>, middle: State, rest: seq<Action>, s': State)
    requires Runs(s, first, middle) && Runs(middle, rest, s')
    ensures Runs(s, first + rest, s')
    decreases |first|
  {
    if first == [] {
      assert first + rest == rest;
    } else {
      assert (first + rest)[1..] == first[1..] + rest;
      RunsConcat(Apply(s, first[0]), first[1..], middle, rest, s');
    }
  }

  lemma RunsThree(s: State, x: Action, s1: State, y: Action, s2: State, z: Action, s3: State)
    requires Enabled(s, x) && s1 == Apply(s, x) && Enabled(s1, y) && s2 == Apply(s1, y) && Enabled(s2, z)
        && s3 == Apply(s2, z)
    ensures Runs(s, [x, y, z], s3)
  {
    RunsOne(s, x, s1);
    RunsOne(s1, y, s2);
    RunsOne(s2, z, s3);
    RunsConcat(s, [x], s1, [y], s2);
    RunsConcat(s, [x] + [y], s2, [z], s3);
    assert [x] + [y] + [z] == [x, y, z];
  }

  // -------------------------------------------------------------------------
  // A whole life.

  lemma RunsTwo(s: State, x: Action, s1: State, y: Action, s2: State)
    requires Enabled(s, x) && s1 == Apply(s, x) && Enabled(s1, y) && s2 == Apply(s1, y)
    ensures Runs(s, [x, y], s2)
  {
    RunsOne(s, x, s1);
    RunsOne(s1, y, s2);
    RunsConcat(s, [x], s1, [y], s2);
    assert [x] + [y] == [x, y];
  }

  /** A free, empty slot without table or process: a fresh owner publishes itself there. */
  lemma FreshOwnerPublishes(s: State, gid: Gid, a: nat, generation: Generation)
    returns (actions: seq<Action>, s': State)
    requires a !in s.owners && generation !in s.used && SlotFree(s, gid) && s.At(gid).Empty? && GroupUnused(s, gid)
    ensures Runs(s, actions, s')
    ensures s' == s.(owners := s.owners[a := Owner(generation, Installing(gid))],
                     receipts := s.receipts[gid := Exact(generation)], used := s.used + {generation})
  {
    var s1 := FreshOwnerLocks(s, gid, a, generation);
    s' := LockedOwnerPublishes(s1, gid, a);
    RunsConcat(s, [Begin(a, generation), Step(a, Lock(gid))], s1, [Step(a, FindEmpty), Step(a, Publish)], s');
    actions := [Begin(a, generation), Step(a, Lock(gid))] + [Step(a, FindEmpty), Step(a, Publish)];
  }

  lemma FreshOwnerLocks(s: State, gid: Gid, a: nat, generation: Generation) returns (s': State)
    requires a !in s.owners && generation !in s.used && SlotFree(s, gid)
    ensures Runs(s, [Begin(a, generation), Step(a, Lock(gid))], s')
    ensures s' == s.(owners := s.owners[a := Owner(generation, Locked(gid))], used := s.used + {generation})
  {
    var s1 := Apply(s, Begin(a, generation));
    s' := Apply(s1, Step(a, Lock(gid)));
    RunsTwo(s, Begin(a, generation), s1, Step(a, Lock(gid)), s');
  }

  lemma LockedOwnerPublishes(s: State, gid: Gid, a: nat) returns (s': State)
    requires a in s.owners && s.owners[a].phase == Locked(gid) && s.At(gid).Empty? && GroupUnused(s, gid)
    ensures Runs(s, [Step(a, FindEmpty), Step(a, Publish)], s')
    ensures s' == s.(owners := s.owners[a := s.owners[a].(phase := Installing(gid))],
                     receipts := s.receipts[gid := Exact(s.owners[a].generation)])
  {
    var s1 := Apply(s, Step(a, FindEmpty));
    s' := Apply(s1, Step(a, Publish));
    RunsTwo(s, Step(a, FindEmpty), s1, Step(a, Publish), s');
  }

  /** It installs its table where there is none and attests it, and can then admit producers. */
  lemma FreshOwnerGoesLive(s: State, gid: Gid, a: nat, handle: nat) returns (actions: seq<Action>, s': State)
    requires a in s.owners && s.owners[a].phase == Installing(gid) && gid !in s.tables && handle !in s.issued
    ensures Runs(s, actions, s')
    ensures var o := s.owners[a];
            s' == s.(owners := s.owners[a := o.(phase := Live(gid, handle, {}, false, true))],
                     tables := s.tables[gid := KernelTable(OwnerOf(o.generation), handle)],
                     issued := s.issued[handle := (gid, OwnerOf(o.generation))])
  {
    var s1 := Apply(s, Step(a, Install(handle)));
    s' := Apply(s1, Step(a, Attest));
    RunsTwo(s, Step(a, Install(handle)), s1, Step(a, Attest), s');
    actions := [Step(a, Install(handle)), Step(a, Attest)];
  }

  /** A live, held owner admits a producer and starts a process for it. */
  lemma ProducerStarts(s: State, a: nat, producer: nat, id: nat) returns (s': State)
    requires a in s.owners && s.owners[a].phase.Live? && s.owners[a].phase.held && !s.owners[a].phase.unverifiedStop
    requires (s.owners[a].generation, producer) !in s.tokens
    ensures Runs(s, [Step(a, Admit(producer)), Step(a, Spawn(producer, id))], s')
    ensures var o := s.owners[a];
            s' == s.(owners := s.owners[a := o.(phase := o.phase.(producers := o.phase.producers + {producer}))],
                     tokens := s.tokens + {(o.generation, producer)},
                     tasks := s.tasks + {Task(id, o.phase.gid, Some(o.generation))})
  {
    var s1 := Apply(s, Step(a, Admit(producer)));
    s' := Apply(s1, Step(a, Spawn(producer, id)));
    RunsTwo(s, Step(a, Admit(producer)), s1, Step(a, Spawn(producer, id)), s');
  }

  /** The process exits and the producer is confirmed stopped. */
  lemma ProducerEnds(s: State, a: nat, producer: nat, task: Task) returns (s': State)
    requires a in s.owners && s.owners[a].phase.Live? && producer in s.owners[a].phase.producers && task in s.tasks
    ensures Runs(s, [Outside(Exit(task)), Step(a, ConfirmStopped(producer))], s')
    ensures var o := s.owners[a];
            s' == s.(owners := s.owners[a := o.(phase := o.phase.(producers := o.phase.producers - {producer}))],
                     tokens := s.tokens - {(o.generation, producer)}, tasks := s.tasks - {task})
  {
    var s1 := Apply(s, Outside(Exit(task)));
    s' := Apply(s1, Step(a, ConfirmStopped(producer)));
    RunsTwo(s, Outside(Exit(task)), s1, Step(a, ConfirmStopped(producer)), s');
  }

  /** Both together leave no trace. */
  lemma ProducerRuns(s: State, a: nat, producer: nat, id: nat) returns (actions: seq<Action>)
    requires a in s.owners && s.owners[a].phase.Live? && s.owners[a].phase.held && !s.owners[a].phase.unverifiedStop
    requires (s.owners[a].generation, producer) !in s.tokens && producer !in s.owners[a].phase.producers
    requires Task(id, s.owners[a].phase.gid, Some(s.owners[a].generation)) !in s.tasks
    ensures |actions| == 4 && Runs(s, actions, s)
  {
    var o := s.owners[a];
    var task := Task(id, o.phase.gid, Some(o.generation));
    var s1 := ProducerStarts(s, a, producer, id);
    var s2 := ProducerEnds(s1, a, producer, task);
    var front := [Step(a, Admit(producer)), Step(a, Spawn(producer, id))];
    RunsConcat(s, front, s1, [Outside(Exit(task)), Step(a, ConfirmStopped(producer))], s2);
    actions := front + [Outside(Exit(task)), Step(a, ConfirmStopped(producer))];
    BackAgain(s, s2, a, o, producer, task);
  }

  lemma BackAgain(s: State, s': State, a: nat, o: Owner, producer: nat, task: Task)
    requires a in s.owners && s.owners[a] == o && o.phase.Live? && producer !in o.phase.producers && task !in s.tasks
    requires (o.generation, producer) !in s.tokens
    requires var producers := o.phase.producers + {producer} - {producer};
             s' == s.(owners := s.owners[a := o.(phase := o.phase.(producers := producers))],
                      tokens := s.tokens + {(o.generation, producer)} - {(o.generation, producer)},
                      tasks := s.tasks + {task} - {task})
    ensures s' == s
  {
    assert o.phase.producers + {producer} - {producer} == o.phase.producers;
    assert s'.owners == s.owners && s'.tokens == s.tokens && s'.tasks == s.tasks;
  }

  /** An owner without producers or processes retires: its table goes, its receipt is emptied and it is gone. */
  lemma OwnerRetires(s: State, a: nat) returns (actions: seq<Action>, s': State)
    requires Inv(s) && a in s.owners && s.owners[a].phase.Live? && s.owners[a].phase.held
    requires !s.owners[a].phase.unverifiedStop && s.owners[a].phase.producers == {}
    requires var gid := s.owners[a].phase.gid;
             && GroupUnused(s, gid)
             && gid in s.tables
             && s.tables[gid] == KernelTable(OwnerOf(s.owners[a].generation), s.owners[a].phase.handle)
    ensures Runs(s, actions, s') && a !in s'.owners
    ensures s'.At(s.owners[a].phase.gid).Empty? && s'.tables == s.tables - {s.owners[a].phase.gid}
    ensures s'.tasks == s.tasks && s'.tokens == s.tokens
  {
    var s1 := RetiringOwnerDeletes(s, a);
    var s2 := Apply(s1, Step(a, Confirm));
    s' := Apply(s2, Step(a, FinishRetire));
    RunsTwo(s1, Step(a, Confirm), s2, Step(a, FinishRetire), s');
    var front := [Step(a, BeginRetire), Step(a, List), Step(a, Delete)];
    RunsConcat(s, front, s1, [Step(a, Confirm), Step(a, FinishRetire)], s');
    actions := front + [Step(a, Confirm), Step(a, FinishRetire)];
  }

  lemma RetiringOwnerDeletes(s: State, a: nat) returns (s': State)
    requires TablesFenced(s) && a in s.owners && s.owners[a].phase.Live? && s.owners[a].phase.held
    requires !s.owners[a].phase.unverifiedStop && s.owners[a].phase.producers == {}
    requires var gid := s.owners[a].phase.gid;
             && GroupUnused(s, gid) && gid in s.tables
             && s.tables[gid] == KernelTable(OwnerOf(s.owners[a].generation), s.owners[a].phase.handle)
    ensures Runs(s, [Step(a, BeginRetire), Step(a, List), Step(a, Delete)], s')
    ensures var o := s.owners[a];
            s' == s.(owners := s.owners[a := o.(phase := Cleaning(o.phase.gid, o.generation, Some(o.phase.handle),
                                                                   Confirming))],
                     tables := s.tables - {o.phase.gid})
  {
    var gid := s.owners[a].phase.gid;
    var s1 := Apply(s, Step(a, BeginRetire));
    var s2 := Apply(s1, Step(a, List));
    s' := Apply(s2, Step(a, Delete));
    RunsThree(s, Step(a, BeginRetire), s1, Step(a, List), s2, Step(a, Delete), s');
    forall g | g in s.tables && s.tables[g].handle == s.tables[gid].handle ensures g == gid {
      assert s.issued[s.tables[g].handle].0 == g;
    }
    assert s'.tables == s.tables - {gid};
  }

  /** Only a crash takes an owner from its producers. */
  lemma OnlyCrashDropsProducers(s: State, a: nat, move: Move)
    requires Enabled(s, Step(a, move)) && s.owners[a].phase.Live? && s.owners[a].phase.producers != {}
    requires var s' := ApplyMove(s, a, s.owners[a], move); a !in s'.owners || !s'.owners[a].phase.Live?
    ensures move.Crash?
  {}

  /** A crash can come anywhere and loses nothing but the owner. */
  lemma CrashLosesOnlyTheOwner(s: State, a: nat)
    requires a in s.owners
    ensures Enabled(s, Step(a, Crash)) && Apply(s, Step(a, Crash)) == s.(owners := s.owners - {a})
  {}

  // -------------------------------------------------------------------------
  // An installation that lands after its owner is gone.

  /** The exclusive creation of a generation's table completes late; a taken name makes it fail. */
  function Landed(s: State, gid: Gid, generation: Generation, handle: nat): State {
    if gid in s.tables then s
    else s.(tables := s.tables[gid := KernelTable(OwnerOf(generation), handle)],
            issued := s.issued[handle := (gid, OwnerOf(generation))])
  }

  predicate SettledSlot(s: State, gid: Gid) {
    exists a :: a in s.owners && s.owners[a].phase.Settled? && s.owners[a].phase.gid == gid
  }

  /** The fence survives exactly if the name is taken or the receipt still names the generation. */
  lemma LateInstallFence(s: State, gid: Gid, generation: Generation, handle: nat)
    requires Inv(s) && handle !in s.issued
    ensures TablesFenced(Landed(s, gid, generation, handle)) <==> gid in s.tables || s.At(gid) == Exact(generation)
  {
    var s' := Landed(s, gid, generation, handle);
    if gid !in s.tables {
      assert s'.tables[gid].comment == OwnerOf(generation) && s'.At(gid) == s.At(gid);
    }
  }

  /** The whole invariant survives exactly if besides nobody has just confirmed that the name is free. */
  lemma LateInstallInvariant(s: State, gid: Gid, generation: Generation, handle: nat)
    requires Inv(s) && handle !in s.issued
    ensures Inv(Landed(s, gid, generation, handle)) <==>
            gid in s.tables || (s.At(gid) == Exact(generation) && !SettledSlot(s, gid))
  {
    var s' := Landed(s, gid, generation, handle);
    LateInstallFence(s, gid, generation, handle);
    if gid !in s.tables {
      forall a | a in s.owners && !(s.owners[a].phase.Settled? && s.owners[a].phase.gid == gid)
        ensures OwnerSound(s', s.owners[a])
      {
        LandedElsewhere(s, s', s.owners[a], gid);
      }
      if SettledSlot(s, gid) {
        var a :| a in s.owners && s.owners[a].phase.Settled? && s.owners[a].phase.gid == gid;
        assert !OwnerSound(s', s'.owners[a]);
      }
    }
  }

  lemma LandedElsewhere(s: State, s': State, o: Owner, gid: Gid)
    requires OwnerSound(s, o) && !(o.phase.Settled? && o.phase.gid == gid)
    requires s'.receipts == s.receipts && s'.tasks == s.tasks && s'.tokens == s.tokens
    requires forall h :: h in s.issued ==> h in s'.issued && s'.issued[h] == s.issued[h]
    requires forall g :: g in s'.tables && g != gid ==> g in s.tables && s'.tables[g] == s.tables[g]
    ensures OwnerSound(s', o)
  {}

  /** It can fail: once an abandoned slot has been taken over, the old generation's late table stands unfenced. */
  lemma LateInstallCanEscape(s: State, gid: Gid, a: nat, generation: Generation)
    returns (actions: seq<Action>, s': State)
    requires Inv(s) && Abandoned(s, gid) && a !in s.owners && generation !in s.used
    ensures Runs(s, actions, s') && Inv(s')
    ensures forall handle :: handle !in s'.issued ==> !TablesFenced(Landed(s', gid, s.At(gid).generation, handle))
  {
    actions, s' := AbandonedSlotIsRecovered(s, gid, a, generation);
    RunKeepsInv(s, actions, s');
    assert s.At(gid).generation in s.used;
    forall handle | handle !in s'.issued ensures !TablesFenced(Landed(s', gid, s.At(gid).generation, handle)) {
      LateInstallFence(s', gid, s.At(gid).generation, handle);
    }
  }
}
