/** src/agent_state/runtime.rs: the durable dispatch and run-tracking runtime. */
module Runtime {
  import opened Base
  import opened Records
  import opened Guards
  import opened Reducer
  import opened Framing
  import opened Protocol
  import opened Dispatch
  import opened Verdicts
  import opened Validity
  import opened Opening
  import opened Outcomes
  import opened Restart
  import opened Store
  import opened Indexes
  import opened RunIndex
  import opened Regions
  import opened Retention
  import opened Artifacts
  import opened RunSteps
  import opened Recovery
  import opened Upkeep

  class AgentRuntime {
    const serverIdentity: Text
    const store: AgentStateStore
    var currentByBinding: map<AgentBinding, RunId>
    var currentByPane: map<PaneInstance, RunId>
    var turns: map<TurnKey, RunId>
    var events: map<Text, RunId>
    var fences: Fences
    var inputs: Inputs

    constructor Unindexed(store: AgentStateStore, serverIdentity: Text)
      ensures this.store == store && this.serverIdentity == serverIdentity
      ensures currentByBinding == map[] && currentByPane == map[] && turns == map[] && events == map[]
      ensures fences == map[] && inputs == map[]
    {
      this.store := store;
      this.serverIdentity := serverIdentity;
      currentByBinding, currentByPane := map[], map[];
      turns, events := map[], map[];
      fences, inputs := map[], map[];
    }

    /** The run indexes are exact images of these runs. */
    ghost predicate Indexes(runs: Runs)
      reads this
    {
      && EventsExact(runs, events)
      && TurnsExact(runs, turns)
      && CurrentExact(runs, currentByBinding)
      && PanesExact(runs, currentByPane)
    }

    ghost predicate RunsIndexed()
      reads this, store
    {
      Indexes(store.disk.runs)
    }

    ghost predicate OperationsIndexed()
      reads this, store
    {
      FenceExact(store.disk.operations, fences) && InputsExact(store.disk.operations, inputs)
    }

    /** Held after every call: the directory is base-sound and every index is a fresh scan of it. */
    ghost predicate Valid()
      reads this, store
    {
      store.Valid() && store.BaseSound() && RunsIndexed() && OperationsIndexed()
    }

    /** Held after every call unless a confirmation was refused for capacity. */
    ghost predicate Trusted()
      reads this, store
    {
      store.LinkSound() && SettledLinks(store.disk.runs, store.disk.operations)
    }

    method PrepareOperation(id: OperationId, targetRef: Text, prompt: Text, promptDigest: Digest, option: Text,
                            binding: OperationBinding, paneVersion: StateVersion, expectedRun: Option<RunProjection>,
                            expectedRunSeq: nat, at: int) returns (r: Result<PrepareResult>)
      requires Valid()
      modifies this`fences, store
      ensures Valid()
      ensures old(Trusted()) ==> Trusted()
      ensures store.LinkSound() <==> old(store.LinkSound())
      ensures Step(r, store.disk) ==
              PrepareOutcome(store.codec, old(store.disk), TargetOf(binding) in old(fences),
                             NewOperation(old(store.disk.meta.generation), id, targetRef, promptDigest, option, binding, paneVersion, expectedRun,
                                          expectedRunSeq, at), prompt)
      ensures !(r.Ok? && r.value.Created?) ==> fences == old(fences)
      // a repeated identifier never changes anything: it answers with the stored record, or refuses
      ensures id in old(store.disk.operations) && store.codec.isUtf8(prompt) && promptDigest == PromptDigest(prompt) ==>
                && store.disk == old(store.disk) && fences == old(fences)
                && var existing := old(store.disk.operations)[id];
                   r == if existing.fingerprint == RequestFingerprint(targetRef, promptDigest, option)
                        then Ok(Existing(existing)) else Err(OperationConflict)
      ensures r.Ok? && r.value.Created? ==>
                && id !in old(store.disk.operations)
                && TargetOf(binding) !in old(fences)
                && r.value.operation == NewOperation(old(store.disk.meta.generation), id, targetRef, promptDigest, option, binding,
                                                     paneVersion, expectedRun, expectedRunSeq, at)
                && store.disk.operations == old(store.disk.operations)[id := r.value.operation]
                && id in store.disk.prompts && store.disk.prompts[id] == prompt
                && fences == old(fences)[TargetOf(binding) := id]
                && RequestedAs(r.value.operation, old(store.disk.meta.generation), id, targetRef, prompt, option, binding, paneVersion, expectedRun,
                               expectedRunSeq, at)
      // busy exactly when another stored operation still holds the target
      ensures store.codec.isUtf8(prompt) && promptDigest == PromptDigest(prompt) && id !in old(store.disk.operations) ==>
                (r == Err(PromptDispatchBusy) <==>
                   exists k :: k in old(store.disk.operations) && HoldsTarget(old(store.disk.operations)[k], binding))
      // what is over a limit is reported as a full store, another prompt under the identifier as a conflict
      ensures r != Err(Capacity)
      ensures (store.codec.isUtf8(prompt) && promptDigest == PromptDigest(prompt) && id !in old(store.disk.operations)
               && TargetOf(binding) !in old(fences)) ==>
                && (|prompt| > 65_536 ==> r == Err(OperationStoreFull))
                && (|prompt| <= 65_536 && id in old(store.disk.prompts) && old(store.disk.prompts)[id] != prompt ==> r == Err(Conflict))
      ensures r.Err? ==> store.disk.operations == old(store.disk.operations) && fences == old(fences)
      ensures TargetOf(binding) in old(fences) ==> fences == old(fences) && (r.Err? || r.value.Existing?)
      ensures store.disk.runs == old(store.disk.runs)
    {
      hide AgentStateStore.Valid, ValidOperation, OperationVerdict, PerformOn, BaseHistory, LinkHistory, Replay,
           EventsExact, TurnsExact, CurrentExact, PanesExact, FenceExact, InputsExact, SettledLinks, RequestFingerprint, StageVerdict, HoldsTarget;
      FenceMeansHeld(store.disk.operations, fences, binding);
      if !store.codec.isUtf8(prompt) || promptDigest != PromptDigest(prompt) {
        return Err(Invalid);
      }
      var fingerprint := RequestFingerprint(targetRef, promptDigest, option);
      if id in store.disk.operations {
        var existing := store.disk.operations[id];
        return if existing.fingerprint == fingerprint then Ok(Existing(existing)) else Err(OperationConflict);
      }
      var key := TargetOf(binding);
      if key in fences {
        return Err(PromptDispatchBusy);
      }
      var record := NewOperation(store.disk.meta.generation, id, targetRef, promptDigest, option, binding,
                                 paneVersion, expectedRun, expectedRunSeq, at);
      PrepareNewRefusals(store.codec, store.disk, record, prompt);
      if at > I64_MAX - PROMPT_CONFIRMATION_TIMEOUT_SECONDS {
        r := StageOnly(record, prompt);
        return;
      }
      var saved := StageAndSave(record, prompt);
      return if saved.Ok? then Ok(Created(record)) else Err(saved.error);
    }

    /** A deadline overflow is only noticed after the prompt was staged: the body stays until the next open. */
    method StageOnly(o: OperationRecord, prompt: Text) returns (r: Result<PrepareResult>)
      requires Valid()
      requires o.deadlineAt > I64_MAX
      modifies store
      ensures Valid()
      ensures old(Trusted()) ==> Trusted()
      ensures store.LinkSound() <==> old(store.LinkSound())
      ensures r.Err?
      ensures Step(r, store.disk) == PrepareNew(store.codec, old(store.disk), o, prompt)
      ensures SameElsePrompts(old(store.disk), store.disk)
    {
      hide AgentStateStore.Valid, PerformOn, BaseHistory, LinkHistory, Replay, OperationVerdict, TotalSize,
           EventsExact, TurnsExact, CurrentExact, PanesExact, FenceExact, InputsExact, SettledLinks;
      store.TiedWhenValid();
      StagingIsLawful(store.codec, store.journal, store.disk, o.operationId, prompt);
      var staged := store.StageBody(o.operationId, prompt);
      r := Err(if staged.Ok? then Invalid else StoreFull(staged.error));
    }

    /** Stage the prompt, then write the operation, then raise the fence; undo the staging if the write is refused. */
    method StageAndSave(o: OperationRecord, prompt: Text) returns (r: Result<()>)
      requires Valid()
      requires o.operationId !in store.disk.operations && TargetOf(o.binding) !in fences
      requires o.state == Prepared && o.revision == 1 && o.receipt.None? && Fingerprinted(o) && o.deadlineAt <= I64_MAX
      requires store.codec.isUtf8(prompt) && o.promptDigest == PromptDigest(prompt)
      modifies this`fences, store
      ensures Valid()
      ensures old(Trusted()) ==> Trusted()
      ensures store.LinkSound() <==> old(store.LinkSound())
      ensures Step(if r.Ok? then Ok(Created(o)) else Err(r.error), store.disk) == PrepareNew(store.codec, old(store.disk), o, prompt)
      ensures fences == if r.Ok? then old(fences)[TargetOf(o.binding) := o.operationId] else old(fences)
    {
      hide AgentStateStore.Valid, ValidOperation, OperationVerdict, PerformOn, BaseHistory, LinkHistory, Replay, TotalSize,
           EventsExact, TurnsExact, CurrentExact, PanesExact, FenceExact, InputsExact, SettledLinks, Fingerprinted;
      var id := o.operationId;
      store.TiedWhenValid();
      StagingIsLawful(store.codec, store.journal, store.disk, id, prompt);
      var staged := store.StageBody(id, prompt);
      if staged.Err? {
        return Err(StoreFull(staged.error));
      }
      PromptIsStaged(store.codec, old(store.disk), store.disk, o, prompt);
      r := SavePrepared(o);
      if r.Err? {
        r := Err(StoreFull(r.error));
        Unstage(id);
      }
    }

    method Unstage(id: OperationId)
      requires Valid() && id !in store.disk.operations
      modifies store
      ensures Valid()
      ensures old(Trusted()) ==> Trusted()
      ensures store.LinkSound() <==> old(store.LinkSound())
      ensures store.disk == WithoutPrompt(old(store.disk), id)
    {
      hide AgentStateStore.Valid, PerformOn, BaseHistory, LinkHistory, Replay,
           EventsExact, TurnsExact, CurrentExact, PanesExact, FenceExact, InputsExact, SettledLinks;
      store.TiedWhenValid();
      UnstagingExtends(store.codec, store.journal, store.disk, id);
      store.DeletePrompt(id);
      assert store.disk.prompts == old(store.disk.prompts) - {id};
    }

    method SavePrepared(o: OperationRecord) returns (r: Result<()>)
      requires Valid()
      requires o.operationId !in store.disk.operations && TargetOf(o.binding) !in fences
      requires o.state == Prepared && o.revision == 1 && o.receipt.None? && Fingerprinted(o)
      requires o.operationId in store.disk.prompts && PromptMatches(store.codec, o, store.disk.prompts[o.operationId])
      modifies this`fences, store
      ensures Valid()
      ensures old(Trusted()) ==> Trusted()
      ensures store.LinkSound() <==> old(store.LinkSound())
      ensures r == OperationVerdict(store.codec, old(store.disk), o)
      ensures r.Ok? ==>
                && store.disk.operations == old(store.disk.operations)[o.operationId := o]
                && SameElseOperations(old(store.disk), store.disk)
                && fences == old(fences)[TargetOf(o.binding) := o.operationId]
      ensures r.Err? ==> store.disk == old(store.disk) && fences == old(fences)
    {
      hide AgentStateStore.Valid, ValidOperation, OperationVerdict, PerformOn, BaseHistory, LinkHistory, Replay, PromptMatches,
           EventsExact, TurnsExact, CurrentExact, PanesExact, FenceExact, InputsExact, SettledLinks;
      store.TiedWhenValid();
      FenceDecides(store.disk.operations, fences, TargetOf(o.binding));
      PrepareExtends(store.codec, store.journal, store.disk, o);
      FenceAfterPrepare(store.disk.operations, fences, o);
      InputsUnchanged(store.disk.operations, inputs, o);
      if SettledLinks(store.disk.runs, store.disk.operations) {
        SettledAfterOther(store.disk.runs, store.disk.operations, o);
      }
      r := store.SaveOperation(o);
      if r.Ok? {
        fences := fences[TargetOf(o.binding) := o.operationId];
      }
    }

    /**
     * Write the next value of a stored operation, reindex its dispatch input, and keep or
     * give up its fence accordingly.
     */
    method Advance(o: OperationRecord) returns (r: Result<()>)
      requires Valid()
      requires o.operationId in store.disk.operations && !OperationStored(store.disk, o)
      requires o.runId.Some? ==> o.state == PromptConfirmed
      modifies this`fences, this`inputs, store
      ensures Valid()
      ensures r == OperationVerdict(store.codec, old(store.disk), o)
      ensures r.Ok? ==>
                && store.disk.operations == old(store.disk.operations)[o.operationId := o]
                && SameElseOperations(old(store.disk), store.disk)
                && fences == FenceAfter(old(fences), o)
                && inputs == IndexInput(old(inputs), o)
                && old(store.disk.operations)[o.operationId].state != PromptConfirmed
                && (InputOf(o).Some? && InputOf(o) == InputOf(old(store.disk.operations)[o.operationId]) ==> inputs == old(inputs))
      ensures r.Err? ==> store.disk == old(store.disk) && fences == old(fences) && inputs == old(inputs)
      ensures store.LinkSound() <==> old(store.LinkSound()) && (r.Err? || LinkLawful(old(store.Past()), ReplaceOperation(o)))
      ensures old(SettledLinks(store.disk.runs, store.disk.operations)) ==> SettledLinks(store.disk.runs, store.disk.operations)
    {
      hide AgentStateStore.Valid, ValidOperation, OperationVerdict, PerformOn, BaseHistory, LinkHistory, Replay, LinkLawful,
           EventsExact, TurnsExact, CurrentExact, PanesExact, FenceExact, InputsExact, SettledLinks, OperationReplacement, IndexInput, Released;
      store.TiedWhenValid();
      AdvanceExtends(store.codec, store.journal, store.disk, o);
      if OperationVerdict(store.codec, store.disk, o).Ok? {
        AdvanceIsReplacement(store.codec, store.disk, o);
        AdvanceReindexes(store.disk.operations, fences, inputs, o);
        SettledAfterAdvance(store.disk.runs, store.disk.operations, o);
      }
      r := store.SaveOperation(o);
      if r.Ok? {
        inputs := IndexInput(inputs, o);
        fences := FenceAfter(fences, o);
      }
    }

    /** Remove the staged body of an operation that no longer needs it. */
    method ForgetPrompt(id: OperationId)
      requires Valid()
      requires id in store.disk.operations ==> !store.disk.operations[id].StagingRequired()
      modifies store
      ensures Valid()
      ensures SameElsePrompts(old(store.disk), store.disk)
      ensures store.disk.prompts == old(store.disk.prompts) - {id}
      ensures store.LinkSound() <==> old(store.LinkSound())
    {
      hide AgentStateStore.Valid, PerformOn, BaseHistory, LinkHistory, Replay,
           EventsExact, TurnsExact, CurrentExact, PanesExact, FenceExact, InputsExact, SettledLinks;
      store.TiedWhenValid();
      UnstagingExtends(store.codec, store.journal, store.disk, id);
      store.DeletePrompt(id);
    }

    method MarkDispatchStarted(id: OperationId, at: int) returns (r: Result<OperationRecord>)
      requires Valid()
      modifies this`fences, this`inputs, store
      ensures Valid()
      ensures old(Trusted()) ==> Trusted()
      ensures SameElseOperations(old(store.disk), store.disk) && fences == old(fences)
      ensures Step(r, store.disk) == MarkOutcome(store.codec, old(store.disk), id, at)
      ensures store.LinkSound() <==> old(store.LinkSound())
      ensures id !in old(store.disk.operations) ==> r == Err(OperationNotFound)
      ensures id in old(store.disk.operations) && old(store.disk.operations)[id].state == Prepared && r.Err? ==> r.error == Capacity
      ensures id in old(store.disk.operations) && old(store.disk.operations)[id].state != Prepared ==>
                r == Ok(old(store.disk.operations)[id]) && store.disk == old(store.disk)
      ensures r.Ok? && old(store.disk.operations)[id].state == Prepared ==>
                && NextValue(old(store.disk.operations)[id], r.value, DispatchStarted, old(store.disk.operations)[id].receipt, at)
                && store.disk.operations == old(store.disk.operations)[id := r.value]
      ensures r.Err? ==> store.disk == old(store.disk) && inputs == old(inputs)
    {
      hide AgentStateStore.Valid, ValidOperation, OperationVerdict, BaseHistory, LinkHistory, Replay,
           RunsIndexed, OperationsIndexed, SettledLinks, IndexInput, Released;
      if id !in store.disk.operations {
        return Err(OperationNotFound);
      }
      store.OperationIsOk(id);
      var record := store.disk.operations[id];
      if record.state != Prepared {
        return Ok(record);
      }
      StartIsAccepted(store.disk.meta.generation, record, at);
      OnlyCapacityRefuses(store.codec, store.disk, Started(record, at).value);
      var next := Started(record, at);
      if next.None? {
        return Err(Invalid);
      }
      var saved := Advance(next.value);
      return if saved.Ok? then Ok(next.value) else Err(saved.error);
    }

    /** The dispatch was refused although a run already claims it: confirmation can never succeed again. */
    ghost predicate Wedges(id: OperationId, state: DispatchState)
      reads store
    {
      && state == Rejected
      && id in store.disk.operations && MaySettle(store.disk.operations[id].state, state)
      && !Unlinked(store.disk.runs, id)
    }

    method SettleDispatch(id: OperationId, state: DispatchState, code: ReceiptCode, at: int) returns (r: Result<OperationRecord>)
      requires Valid()
      modifies this`fences, this`inputs, store
      ensures Valid()
      ensures old(Trusted()) ==> Trusted()
      ensures Step(r, store.disk) == SettleOutcome(store.codec, old(store.disk), id, state, code, at)
      // the links stay sound exactly when the write does not reject a claimed operation
      ensures store.LinkSound() <==> old(store.LinkSound()) && !(r.Ok? && old(Wedges(id, state)))
      ensures old(SettledLinks(store.disk.runs, store.disk.operations)) ==> SettledLinks(store.disk.runs, store.disk.operations)
      ensures state != DeliveryUnknown && state != Rejected ==> r == Err(Invalid)
      ensures r.Err? ==> store.disk == old(store.disk) && fences == old(fences) && inputs == old(inputs)
      ensures SoundCode(code, at) && id in old(store.disk.operations) ==>
                MaySettle(old(store.disk.operations)[id].state, state) && r.Err? ==> r.error == Capacity
      ensures r.Ok? ==>
                && id in old(store.disk.operations)
                && store.disk.operations == old(store.disk.operations)[id := r.value]
                && store.disk.prompts == old(store.disk.prompts) - {id}
                && store.disk.meta == old(store.disk.meta)
                && store.disk.runs == old(store.disk.runs) && store.disk.artifacts == old(store.disk.artifacts)
                && r.value.state == state && !r.value.StagingRequired() && r.value.operationId == id
                && fences == FenceAfter(old(fences), r.value)
                && (if old(store.disk.operations)[id].state == state then r.value == old(store.disk.operations)[id] && fences == old(fences)
                    else MaySettle(old(store.disk.operations)[id].state, state)
                         && SettledTo(old(store.disk.operations)[id], state, code, at) == Some(r.value)
                         && NextValue(old(store.disk.operations)[id], r.value, state, Some(Receipt(code, at, None, None)), at))
      // only an unsent operation is rejected without having been sent, and only a sent one has an unknown delivery
      ensures id in old(store.disk.operations) && (state == DeliveryUnknown || state == Rejected) && old(store.disk.operations)[id].state != state ==>
                var was := old(store.disk.operations)[id].state;
                && (r == Err(OperationConflict) ==> !(was == DispatchStarted || (was == Prepared && state == Rejected)) || !SoundCode(code, at))
                && (!(was == DispatchStarted || (was == Prepared && state == Rejected)) ==> r == Err(OperationConflict))
    {
      hide AgentStateStore.Valid, ValidOperation, OperationVerdict, BaseHistory, LinkHistory, Replay,
           EventsExact, TurnsExact, CurrentExact, PanesExact, FenceExact, InputsExact, SettledLinks, IndexInput, Released,
           SettledTo, NextValue, SoundCode;
      if state != DeliveryUnknown && state != Rejected {
        return Err(Invalid);
      }
      if id !in store.disk.operations {
        return Err(OperationNotFound);
      }
      store.OperationIsOk(id);
      var record := store.disk.operations[id];
      if record.state == state {
        if !record.Fenced() {
          StaleReleaseIsHarmless(store.disk.operations, fences, record);
        }
        if state == Rejected {
          fences := Released(fences, record);
        }
        ForgetPrompt(id);
        return Ok(record);
      }
      if !MaySettle(record.state, state) {
        return Err(OperationConflict);
      }
      if SoundCode(code, at) {
        SettlementIsAccepted(store.disk.meta.generation, record, state, code, at);
        OnlyCapacityRefuses(store.codec, store.disk, SettledTo(record, state, code, at).value);
      }
      var next := SettledTo(record, state, code, at);
      if next.None? {
        return Err(Invalid);
      }
      SettledShape(record, state, code, at);
      SettlingKeepsSettled(store.disk.runs, store.disk.operations, id);
      store.TiedWhenValid();
      SettlingLinks(store.codec, store.Past(), store.disk, next.value, record, state, code, at);
      r := AdvanceAndForget(next.value);
    }

    /** The write that ends the need for the staged prompt, and then the removal of the prompt. */
    method AdvanceAndForget(o: OperationRecord) returns (r: Result<OperationRecord>)
      requires Valid()
      requires o.operationId in store.disk.operations && !OperationStored(store.disk, o)
      requires !o.StagingRequired() && (o.runId.Some? ==> o.state == PromptConfirmed)
      modifies this`fences, this`inputs, store
      ensures Valid()
      ensures Step(r, store.disk) ==
              var saved := OperationSaved(store.codec, old(store.disk), o);
              if saved.result.Ok? then Step(saved.result, WithoutPrompt(saved.disk, o.operationId)) else saved
      ensures r == (var v := OperationVerdict(store.codec, old(store.disk), o); if v.Ok? then Ok(o) else Err(v.error))
      ensures r.Err? ==> store.disk == old(store.disk) && fences == old(fences) && inputs == old(inputs)
      ensures r.Ok? ==>
                && store.disk.operations == old(store.disk.operations)[o.operationId := o]
                && SameButDispatch(old(store.disk), store.disk)
                && store.disk.prompts == old(store.disk.prompts) - {o.operationId}
                && fences == FenceAfter(old(fences), o)
                && old(store.disk.operations)[o.operationId].state != PromptConfirmed
                && (InputOf(o).Some? && InputOf(o) == InputOf(old(store.disk.operations)[o.operationId]) ==> inputs == old(inputs))
      ensures store.LinkSound() <==> old(store.LinkSound()) && (r.Err? || LinkLawful(old(store.Past()), ReplaceOperation(o)))
      ensures old(SettledLinks(store.disk.runs, store.disk.operations)) ==> SettledLinks(store.disk.runs, store.disk.operations)
    {
      hide AgentStateStore.Valid, ValidOperation, OperationVerdict, BaseHistory, LinkHistory, Replay, LinkLawful,
           EventsExact, TurnsExact, CurrentExact, PanesExact, FenceExact, InputsExact, SettledLinks, IndexInput, Released;
      var saved := Advance(o);
      if saved.Err? {
        return Err(saved.error);
      }
      ForgetPrompt(o.operationId);
      r := Ok(o);
    }

    /** Exactly an overdue prepared operation is rejected. */
    method RejectPreparedRetryIfExpired(id: OperationId, at: int) returns (r: Result<Option<OperationRecord>>)
      requires Valid()
      modifies this`fences, this`inputs, store
      ensures Valid()
      ensures old(Trusted()) ==> Trusted()
      ensures old(store.LinkSound()) ==> store.LinkSound()
      ensures id !in old(store.disk.operations) ==> r == Err(OperationNotFound) && store.disk == old(store.disk)
      ensures id in old(store.disk.operations) ==>
                var o := old(store.disk.operations)[id];
                if o.state == Prepared && o.deadlineAt <= at then
                  var settled := SettleOutcome(store.codec, old(store.disk), id, Rejected, PREPARED_TIMEOUT, at);
                  && store.disk == settled.disk
                  && r == (if settled.result.Ok? then Ok(Some(settled.result.value)) else Err(settled.result.error))
                  && (r.Err? ==> r.error == Capacity)
                  && (r.Ok? ==> r.value.Some? && SettledAs(o, r.value.value, Rejected, "prepared_dispatch_timeout", at))
                else r == Ok(None) && store.disk == old(store.disk) && fences == old(fences)
    {
      hide AgentStateStore.Valid, ValidOperation, BaseHistory, LinkHistory, Replay, RunsIndexed, OperationsIndexed, SettledLinks, SettleOutcome,
           SoundCode, SettledTo;
      if id !in store.disk.operations {
        return Err(OperationNotFound);
      }
      var record := store.disk.operations[id];
      if record.state != Prepared || record.deadlineAt > at {
        return Ok(None);
      }
      store.OperationIsOk(id);
      TimeoutIsSound(record, at);
      store.PreparedIsUnlinked(id);
      var settled := SettleDispatch(id, Rejected, PREPARED_TIMEOUT, at);
      r := if settled.Ok? then Ok(Some(settled.value)) else Err(settled.error);
    }

    method AbandonOperation(server: Text, generation: Generation, id: OperationId, expected: nat, reason: Text, at: int)
      returns (r: Result<OperationRecord>)
      requires Valid()
      modifies this`fences, this`inputs, store
      ensures Valid()
      ensures old(Trusted()) ==> Trusted()
      ensures store.LinkSound() <==> old(store.LinkSound())
      ensures server != serverIdentity || generation != old(store.disk.meta.generation) ==>
                r == Err(OperationGenerationReplaced) && store.disk == old(store.disk)
      ensures server == serverIdentity && generation == old(store.disk.meta.generation) ==>
                Step(r, store.disk) == AbandonOutcome(store.codec, old(store.disk), id, expected, reason, at)
      ensures inputs == old(inputs)
      ensures r.Ok? ==>
                && id in old(store.disk.operations)
                && r.value.Abandoned() && r.value.receipt.value.attribution == Some(Operator(reason)) && r.value.revision == expected + 1
      ensures r.Ok? && !old(store.disk.operations)[id].Abandoned() ==>
                && old(store.disk.operations)[id].revision == expected
                && AbandonedAs(old(store.disk.operations)[id], r.value, reason, at)
                && forall k :: k in old(store.disk.runs) ==> old(store.disk.runs)[k].operationId != Some(id)
      // a reason that cannot be recorded is invalid, and no other is
      ensures server == serverIdentity && generation == old(store.disk.meta.generation) ==> (r == Err(Invalid) <==> !GoodReason(reason) || at < 0)
      // only the fence of this very operation is given up, and a repeat gives up none
      ensures fences == if r.Ok? && !old(store.disk.operations)[id].Abandoned() then Released(old(fences), r.value) else old(fences)
    {
      hide AgentStateStore.Valid, ValidOperation, ValidReceipt, OperationVerdict, BaseHistory, LinkHistory, Replay, Blank, RequiredText,
           EventsExact, TurnsExact, CurrentExact, PanesExact, FenceExact, InputsExact, SettledLinks, IndexInput, Released, GoodReason;
      if server != serverIdentity || generation != store.disk.meta.generation {
        return Err(OperationGenerationReplaced);
      }
      ReasonsAreGood(reason, at);
      var receipt := AbandonReceipt(reason, at);
      if receipt.None? {
        return Err(Invalid);
      }
      if id !in store.disk.operations {
        return Err(OperationNotFound);
      }
      store.OperationIsOk(id);
      var o := store.disk.operations[id];
      if o.Abandoned() {
        if expected + 1 == o.revision && o.receipt.value.attribution == receipt.value.attribution {
          StaleReleaseIsHarmless(store.disk.operations, fences, o);
          fences := Released(fences, o);
          ForgetPrompt(id);
          return Ok(o);
        }
        return Err(OperationConflict);
      }
      if expected == 0 || o.revision != expected {
        return Err(StalePrecondition);
      }
      if o.state != DeliveryUnknown || o.runId.Some? {
        return Err(OperationConflict);
      }
      if exists run :: run in store.disk.runs && store.disk.runs[run].operationId == Some(id) {
        return Err(OperationConflict);
      }
      AbandonmentIsAccepted(store.disk.meta.generation, o, reason, at);
      var next := AbandonedWith(o, receipt.value, at);
      if next.None? {
        return Err(Invalid);
      }
      store.TiedWhenValid();
      OnlyCapacityRefuses(store.codec, store.disk, next.value);
      AbandonmentIsUnclaimed(store.codec, store.Past(), next.value, id);
      r := AdvanceAndForget(next.value);
    }

    /**
     * `confirm_linked_operation`: the stored run's claim on its operation is made final.
     * It cannot get stuck: on a link-sound directory only a full store refuses it.
     */
    method ConfirmLinkedOperation(run: RunRecord, at: int) returns (r: Result<Option<OperationRecord>>)
      requires Valid()
      requires RunStored(store.disk, run)
      modifies this`fences, this`inputs, store
      ensures Valid()
      ensures Step(r, store.disk) == ConfirmOutcome(store.codec, old(store.disk), run, at)
      ensures store.LinkSound() <==> old(store.LinkSound())
      ensures old(store.LinkSound()) && r.Err? ==> !LinkSettled(run, old(store.disk.operations)) && (at >= 0 ==> r.error == Capacity)
      ensures r.Err? ==> store.disk == old(store.disk) && fences == old(fences) && inputs == old(inputs)
      ensures SameButDispatch(old(store.disk), store.disk)
      ensures r.Ok? ==> LinkSettled(run, store.disk.operations) && (r.value.Some? <==> run.operationId.Some?)
      ensures r.Ok? && r.value.Some? ==>
                && r.value.value.operationId == run.operationId.value
                && r.value.value.state == PromptConfirmed
                && store.disk.operations == old(store.disk.operations)[run.operationId.value := r.value.value]
                && store.disk.prompts == old(store.disk.prompts) - {run.operationId.value}
                && fences == FenceAfter(old(fences), r.value.value)
                && (old(store.LinkSound()) || old(store.disk.operations)[run.operationId.value].state != PromptConfirmed ==>
                      r.value.value.binding == FromAgent(run.binding))
                && SameRequest(old(store.disk.operations)[run.operationId.value], r.value.value)
                && (if old(store.disk.operations)[run.operationId.value].state == PromptConfirmed
                    then r.value.value == old(store.disk.operations)[run.operationId.value]
                    else ConfirmedAs(old(store.disk.operations)[run.operationId.value], r.value.value, run, at))
      ensures r.Ok? && r.value.None? ==> store.disk == old(store.disk) && fences == old(fences) && inputs == old(inputs)
      // confirming again never releases a newer operation's fence
      ensures r.Ok? && run.operationId.Some? && old(store.disk.operations)[run.operationId.value].state == PromptConfirmed ==> fences == old(fences)
      ensures forall other :: LinkSettled(other, old(store.disk.operations)) ==> LinkSettled(other, store.disk.operations)
    {
      hide AgentStateStore.Valid, ValidOperation, OperationVerdict, BaseHistory, LinkHistory, Replay,
           EventsExact, TurnsExact, CurrentExact, PanesExact, FenceExact, InputsExact, SettledLinks, IndexInput, Released, BindingMatches;
      if run.operationId.None? {
        return Ok(None);
      }
      var id := run.operationId.value;
      store.CreditIsHeld(run, at);
      if id !in store.disk.operations {
        return Err(OperationNotFound);
      }
      store.OperationIsOk(id);
      var o := store.disk.operations[id];
      if o.state == PromptConfirmed {
        if o.runId != Some(run.runId) {
          return Err(Corrupt);
        }
        StaleReleaseIsHarmless(store.disk.operations, fences, o);
        fences := Released(fences, o);
        ForgetPrompt(id);
        return Ok(Some(o));
      }
      var next := ConfirmedBy(o, run, at);
      if next.None? {
        return Err(OperationConflict);
      }
      store.TiedWhenValid();
      SettledAfterAdvance(store.disk.runs, store.disk.operations, next.value);
      var saved := AdvanceAndForget(next.value);
      r := if saved.Ok? then Ok(Some(saved.value)) else Err(saved.error);
    }

    method HasInFlightOperations() returns (found: bool)
      requires Valid()
      ensures found <==>
                exists id :: id in store.disk.operations
                             && (store.disk.operations[id].state == Prepared || store.disk.operations[id].state == DispatchStarted)
    {
      hide AgentStateStore.Valid, RunsIndexed, InputsExact;
      found := exists k :: k in fences && fences[k] in store.disk.operations && store.disk.operations[fences[k]].InFlight();
      if id :| id in store.disk.operations && store.disk.operations[id].InFlight() {
        assert fences[TargetOf(store.disk.operations[id].binding)] == id;
      }
    }

    method HasExpiredDispatch(at: int) returns (found: bool)
      requires Valid()
      ensures found <==> exists id :: id in store.disk.operations && Due(store.disk.operations[id], at)
    {
      hide AgentStateStore.Valid, RunsIndexed, InputsExact;
      found := exists k :: k in fences && fences[k] in store.disk.operations && Overdue(store.disk.operations[fences[k]], at);
      if id :| id in store.disk.operations && Overdue(store.disk.operations[id], at) {
        assert fences[TargetOf(store.disk.operations[id].binding)] == id;
      }
    }

    /** A prompt hook is dispatched input exactly when some stored operation that was sent explains it. */
    method MatchesDispatchInput(binding: AgentBinding, obs: Observation, automaticOnly: bool) returns (found: bool)
      requires Valid()
      ensures found <==>
                obs.hook == UserPromptSubmit && exists id :: id in store.disk.operations && SentPrompt(store.disk.operations[id], binding, obs, automaticOnly)
    {
      hide AgentStateStore.Valid, RunsIndexed, FenceExact, InputsExact, InputMatches, Explains, SentPrompt;
      AllExplainSentPrompts(store.disk.operations, binding, obs, automaticOnly);
      if obs.hook != UserPromptSubmit {
        return false;
      }
      var key := TargetOf(FromAgent(binding));
      InputsDecide(store.disk.operations, inputs, binding, obs, automaticOnly);
      found := key in inputs && exists id :: id in inputs[key] && InputMatches(inputs[key][id], binding, obs, automaticOnly);
    }

    /** The overdue operations all fit once settled. */
    ghost predicate OverdueFit(at: int)
      reads store
    {
      var due := OverdueIds(store.disk.operations, at);
      && RoomFor(store.codec, store.disk.operations, |due|)
      && forall id :: id in due ==> TimeoutFits(store.codec, store.disk.operations[id], at)
    }

    /** Everything overdue is settled, nothing else is touched; only a full store stops it, at the operation it refuses. */
    method SettleExpiredDispatches(at: int) returns (r: Result<seq<OperationRecord>>)
      requires Valid()
      modifies this`fences, this`inputs, store
      ensures Valid()
      ensures old(Trusted()) ==> Trusted()
      ensures old(store.LinkSound()) ==> store.LinkSound()
      ensures store.disk.operations.Keys == old(store.disk.operations).Keys
      ensures forall id :: id in old(store.disk.operations) ==>
                || store.disk.operations[id] == old(store.disk.operations)[id]
                || (Due(old(store.disk.operations)[id], at) && ExpiredAs(old(store.disk.operations)[id], store.disk.operations[id], at))
      ensures r.Ok? ==> forall id :: id in old(store.disk.operations) ==>
                if Due(old(store.disk.operations)[id], at) then store.disk.operations[id] in r.value && !Due(store.disk.operations[id], at)
                else store.disk.operations[id] == old(store.disk.operations)[id]
      ensures r.Err? ==> r.error == Capacity && exists id :: id in store.disk.operations && TimeoutRefused(store.codec, store.disk, id, at)
      ensures old(OverdueFit(at)) ==> r.Ok?
      ensures store.disk.runs == old(store.disk.runs)
    {
      hide AgentStateStore.Valid, ValidOperation, OperationVerdict, BaseHistory, LinkHistory, Replay, RunsIndexed, FenceExact, InputsExact, SettledLinks,
           FenceAfter, SettledTo, TimeoutCode, MaySettle, SoundCode, Overdue, SettleOutcome, RoomFor, TimeoutFits, Due, ExpiredAs, TimedOut;
      var before := store.disk.operations;
      var left := set k | k in fences && fences[k] in before && Overdue(before[fences[k]], at) :: fences[k];
      OverdueAreFenced(before, fences, left, at);
      assert left == OverdueIds(before, at);
      ghost var fit := OverdueFit(at);
      var settled := [];
      while left != {}
        invariant Valid()
        invariant old(Trusted()) ==> Trusted()
        invariant old(store.LinkSound()) ==> store.LinkSound()
        invariant store.disk.runs == old(store.disk.runs)
        invariant store.disk.operations.Keys == before.Keys
        invariant forall id :: id in left ==> id in before && Overdue(before[id], at) && store.disk.operations[id] == before[id]
        invariant forall id :: id in before && id !in left ==> !Overdue(store.disk.operations[id], at)
        invariant forall id :: id in before && id !in left ==>
                    if Overdue(before[id], at) then Some(store.disk.operations[id]) == TimedOut(before[id], at) && store.disk.operations[id] in settled
                    else store.disk.operations[id] == before[id]
        invariant fit ==> RoomFor(store.codec, store.disk.operations, |left|) && forall id :: id in left ==> TimeoutFits(store.codec, before[id], at)
        decreases left
      {
        var id :| id in left;
        var one := SettleOverdue(id, at, |left|);
        if one.Err? {
          OverdueInFields(before, store.disk.operations, at);
          return Err(one.error);
        }
        settled := settled + [one.value];
        left := left - {id};
      }
      OverdueInFields(before, store.disk.operations, at);
      r := Ok(settled);
    }

    /** Settle one overdue operation; `n` counts the room that is left. */
    method SettleOverdue(id: OperationId, at: int, ghost n: nat) returns (r: Result<OperationRecord>)
      requires Valid() && id in store.disk.operations && Overdue(store.disk.operations[id], at)
      modifies this`fences, this`inputs, store
      ensures Valid()
      ensures old(Trusted()) ==> Trusted()
      ensures old(store.LinkSound()) ==> store.LinkSound()
      ensures store.disk.runs == old(store.disk.runs)
      ensures r.Ok? ==>
                && TimedOut(old(store.disk.operations)[id], at) == Some(r.value) && !Overdue(r.value, at)
                && store.disk.operations == old(store.disk.operations)[id := r.value]
      ensures r.Err? ==> store.disk == old(store.disk) && r.error == Capacity && TimeoutRefused(store.codec, store.disk, id, at)
      ensures n > 0 && old(RoomFor(store.codec, store.disk.operations, n)) && TimeoutFits(store.codec, old(store.disk.operations)[id], at) ==>
                r.Ok? && RoomFor(store.codec, store.disk.operations, n - 1)
    {
      hide AgentStateStore.Valid, ValidOperation, OperationVerdict, BaseHistory, LinkHistory, Replay, RunsIndexed, OperationsIndexed, SettledLinks,
           FenceAfter, SettledTo, SoundCode, RoomFor;
      var o := store.disk.operations[id];
      store.OperationIsOk(id);
      store.OperationsAreStored();
      TimeoutIsSound(o, at);
      if o.state == Prepared {
        store.PreparedIsUnlinked(id);
      }
      if n > 0 && RoomFor(store.codec, store.disk.operations, n) && TimeoutFits(store.codec, o, at) {
        SettledKeepsId(o, TimeoutState(o), TimeoutCode(o), at);
        RoomIsEnough(store.codec, store.disk, TimedOut(o, at).value, n);
      }
      r := SettleDispatch(id, TimeoutState(o), TimeoutCode(o), at);
    }

    // ---------------------------------------------------------------- run indexes

    /** `index_run`, on any directory: refused exactly when the run clashes with another one, or the index is full. */
    method IndexRun(run: RunRecord) returns (r: Result<()>)
      modifies this`events, this`turns, this`currentByBinding, this`currentByPane
      ensures r == IndexVerdict(store.disk.runs, old(events), old(turns), old(currentByBinding), run)
      ensures r == Err(Corrupt) <==> KnownElsewhere(store.disk.runs, old(events), old(turns), old(currentByBinding), run)
      ensures r.Ok? ==>
                && events == EventsAfter(old(events), run) && turns == TurnsAfter(old(turns), run)
                && currentByBinding == CurrentAfter(store.disk.runs, old(currentByBinding), run)
                && currentByPane == PanesAfter(store.disk.runs, old(currentByBinding), old(currentByPane), run)
                && (var takes := TakesOver(store.disk.runs, old(currentByBinding), run);
                    && currentByBinding == (if takes then old(currentByBinding)[run.binding := run.runId] else old(currentByBinding))
                    && currentByPane == if takes && ShowsUp(store.disk.runs, old(currentByPane), run)
                                        then old(currentByPane)[run.binding.pane := run.runId] else old(currentByPane))
      ensures r.Err? ==>
                && events == EventsKept(old(events), run) && turns == old(turns)
                && currentByBinding == old(currentByBinding) && currentByPane == old(currentByPane)
    {
      hide ReplacesCurrent, ReplacesPane, EventsKept, EventsAfter, TurnsAfter, Clash, CountNew, TakesOver, ShowsUp, KnownElsewhere;
      KeptTwice(events, run);
      AfterInFields(store.disk.runs, currentByBinding, currentByPane, run);
      CorruptIsKnownElsewhere(store.disk.runs, events, turns, currentByBinding, run);
      events := EventsKept(events, run);
      if Clash(store.disk.runs, events, turns, currentByBinding, run) {
        return Err(Corrupt);
      }
      if |events| + CountNew(run.evidence.events, events) > EVENT_INDEX_LIMIT {
        return Err(Capacity);
      }
      if ReplacesCurrent(store.disk.runs, currentByBinding, run) {
        currentByBinding := currentByBinding[run.binding := run.runId];
        if ReplacesPane(store.disk.runs, currentByPane, run) {
          currentByPane := currentByPane[run.binding.pane := run.runId];
        }
      }
      turns := TurnsAfter(turns, run);
      events := EventsAfter(events, run);
      r := Ok(());
    }

    /** On a directory that only lawful writes produced, none of the refusals of `index_run` is reachable. */
    method IndexLawful(run: RunRecord, ghost scope: Runs) returns (r: Result<()>)
      requires store.Valid() && store.BaseSound()
      requires InScope(store.disk.runs, scope, run) && Indexes(scope)
      modifies this`events, this`turns, this`currentByBinding, this`currentByPane
      ensures r == Ok(())
      ensures Indexes(scope[run.runId := run])
      ensures events == EventsAfter(old(events), run) && turns == TurnsAfter(old(turns), run)
      ensures currentByBinding == CurrentAfter(store.disk.runs, old(currentByBinding), run)
      ensures currentByPane == PanesAfter(store.disk.runs, old(currentByBinding), old(currentByPane), run)
    {
      hide AgentStateStore.Valid, EventsUnique, TurnsUnique, SequencesUnique, ActiveNewest, EventsExact, TurnsExact, CurrentExact, PanesExact,
           CurrentAfter, PanesAfter, EventsKept, EventsAfter, TurnsAfter, Clash, CountNew, DistinctEvents, InScope, AgentStateStore.BaseSound;
      IndexingHolds(run, scope);
      r := IndexRun(run);
    }

    // ---------------------------------------------------------------- writing runs

    /** Save the next value of a run whose indexed parts do not change. */
    method ReplaceUnindexed(run: RunRecord) returns (r: Result<()>)
      requires Valid()
      requires Admissible(store.codec, store.disk, run) && Refs(run) == Refs(store.disk.runs[run.runId])
      modifies store
      ensures Valid()
      ensures r == RunVerdict(store.codec, old(store.disk), run)
      ensures Step(if r.Ok? then Ok(run) else Err(r.error), store.disk) == RunSaved(store.codec, old(store.disk), run)
      ensures r.Err? ==> store.disk == old(store.disk)
      ensures r.Ok? ==>
                && store.disk.runs == old(store.disk.runs)[run.runId := run] && SameElseRuns(old(store.disk), store.disk)
                && RunReplacement(old(store.disk.runs)[run.runId], run)
      ensures store.LinkSound() <==> old(store.LinkSound())
      ensures SettledLinks(store.disk.runs, store.disk.operations) <==> old(SettledLinks(store.disk.runs, store.disk.operations))
      ensures store.Births() == old(store.Births())
    {
      hide AgentStateStore.Valid, Successor, BaseHistory, LinkHistory, Replay, RunVerdict, PerformOn, EvidenceReplacement, ArtifactReplacement,
           EventsExact, TurnsExact, CurrentExact, PanesExact, FenceExact, InputsExact, SettledLinks, Refs;
      store.TiedWhenValid();
      ReplaceExtends(store.codec, store.journal, store.disk, run);
      if RunVerdict(store.codec, store.disk, run).Ok? {
        OneReplaced(store.disk.runs, run, events, turns, currentByBinding, currentByPane);
        SettledAfterReplace(store.disk.runs, store.disk.operations, run);
      }
      r := store.SaveRun(run, NO_CAUSE);
    }

    /** Save the next value of a run and index it. */
    method ReplaceIndexed(run: RunRecord) returns (r: Result<()>)
      requires Valid()
      requires Admissible(store.codec, store.disk, run)
      modifies this`events, this`turns, this`currentByBinding, this`currentByPane, store
      ensures Valid()
      ensures r == RunVerdict(store.codec, old(store.disk), run)
      ensures Step(if r.Ok? then Ok(run) else Err(r.error), store.disk) == RunSaved(store.codec, old(store.disk), run)
      ensures r.Err? ==>
                && store.disk == old(store.disk) && events == old(events) && turns == old(turns)
                && currentByBinding == old(currentByBinding) && currentByPane == old(currentByPane)
      ensures r.Ok? ==>
                && store.disk.runs == old(store.disk.runs)[run.runId := run] && SameElseRuns(old(store.disk), store.disk)
                && RunReplacement(old(store.disk.runs)[run.runId], run)
                && currentByBinding == CurrentAfter(store.disk.runs, old(currentByBinding), run)
                && currentByPane == PanesAfter(store.disk.runs, old(currentByBinding), old(currentByPane), run)
      ensures store.LinkSound() <==> old(store.LinkSound())
      ensures SettledLinks(store.disk.runs, store.disk.operations) <==> old(SettledLinks(store.disk.runs, store.disk.operations))
      ensures store.Births() == old(store.Births())
    {
      hide AgentStateStore.Valid, Successor, BaseHistory, LinkHistory, Replay, RunVerdict, PerformOn, EvidenceReplacement, ArtifactReplacement,
           EventsExact, TurnsExact, CurrentExact, PanesExact, FenceExact, InputsExact, SettledLinks, InScope, EventsAfter, TurnsAfter,
           ReplacesCurrent, PanesAfter;
      store.TiedWhenValid();
      ReplaceExtends(store.codec, store.journal, store.disk, run);
      ghost var scope := store.disk.runs;
      if RunVerdict(store.codec, store.disk, run).Ok? {
        ScopeAfterSave(scope, run);
        SettledAfterReplace(scope, store.disk.operations, run);
      }
      r := store.SaveRun(run, NO_CAUSE);
      if r.Ok? {
        var indexed := IndexLawful(run, scope);
        if indexed.Err? {
          return indexed;
        }
      }
    }

    /** Save a new run and index it. */
    method CreateIndexed(run: RunRecord, cause: Observation) returns (r: Result<()>)
      requires Valid()
      requires Newcomer(store.disk.runs, run, cause) && run.runId !in store.Births()
      modifies this`events, this`turns, this`currentByBinding, this`currentByPane, store
      ensures Valid()
      ensures r == RunVerdict(store.codec, old(store.disk), run)
      ensures Step(if r.Ok? then Ok(run) else Err(r.error), store.disk) == RunSaved(store.codec, old(store.disk), run)
      ensures r.Err? ==> store.disk == old(store.disk)
      ensures r.Ok? ==> store.disk.runs == old(store.disk.runs)[run.runId := run] && SameElseRuns(old(store.disk), store.disk)
      ensures r.Ok? ==> currentByBinding == CurrentAfter(store.disk.runs, old(currentByBinding), run)
      ensures store.LinkSound() <==> old(store.LinkSound()) && (r.Err? || LinkLawful(old(store.Past()), CreateRun(run, cause)))
    {
      hide AgentStateStore.Valid, Newcomer, BaseHistory, LinkHistory, Replay, RunVerdict, PerformOn, LinkLawful,
           EventsExact, TurnsExact, CurrentExact, PanesExact, FenceExact, InputsExact, InScope, EventsAfter, TurnsAfter,
           ReplacesCurrent, PanesAfter;
      store.TiedWhenValid();
      CreateExtends(store.codec, store.journal, store.disk, run, cause);
      ghost var scope := store.disk.runs;
      NewcomerIsNew(scope, run, cause);
      ScopeAfterSave(scope, run);
      r := store.SaveRun(run, cause);
      if r.Ok? {
        var indexed := IndexLawful(run, scope);
        if indexed.Err? {
          return indexed;
        }
      }
    }

    // ---------------------------------------------------------------- ending runs

    /** An active run is ended; any other is left alone. */
    method EndUnresolvedRun(id: RunId, at: int) returns (r: Result<RunRecord>)
      requires Valid() && id in store.disk.runs
      modifies this`events, this`turns, this`currentByBinding, this`currentByPane, store
      ensures Valid()
      ensures store.LinkSound() <==> old(store.LinkSound())
      ensures SettledLinks(store.disk.runs, store.disk.operations) <==> old(SettledLinks(store.disk.runs, store.disk.operations))
      ensures store.Births() == old(store.Births())
      ensures Step(r, store.disk) == EndOutcome(store.codec, old(store.disk), id, at)
      ensures SameElseRuns(old(store.disk), store.disk)
      ensures r.Err? ==> store.disk == old(store.disk) && currentByBinding == old(currentByBinding) && currentByPane == old(currentByPane)
      ensures r.Ok? ==>
                && r.value.runId == id && !r.value.Active()
                && (if old(store.disk.runs)[id].Active() then EndedAt(old(store.disk.runs)[id], at) == Some(r.value)
                    else r.value == old(store.disk.runs)[id])
                && (if StillOpen(old(store.disk.runs)[id]) then EndedAs(old(store.disk.runs)[id], r.value, at) else r.value == old(store.disk.runs)[id])
                && store.disk.runs == old(store.disk.runs)[id := r.value]
                && (currentByPane == old(currentByPane) || currentByPane == old(currentByPane)[r.value.binding.pane := id])
      ensures currentByBinding == old(currentByBinding)
      ensures !old(store.disk.runs)[id].Active() ==> r.Ok? && currentByBinding == old(currentByBinding) && currentByPane == old(currentByPane)
    {
      hide AgentStateStore.Valid, BaseHistory, LinkHistory, Replay, RunVerdict, Admissible, RunReplacement, Refs, RunsIndexed, OperationsIndexed,
           SettledLinks, ReplacesCurrent, ReplacesPane, AgentStateStore.Births;
      store.RunsAreDistinct();
      var run := store.disk.runs[id];
      EndedAtIsAs(run, at);
      if !run.Active() {
        return Ok(run);
      }
      var next := EndedAt(run, at);
      if next.None? {
        return Err(Invalid);
      }
      ActiveIsCurrent(id);
      store.TiedWhenValid();
      EndingIsAdmissible(store.codec, store.journal, store.disk, id, at);
      var saved := ReplaceIndexed(next.value);
      assert old(currentByBinding)[run.binding := id] == old(currentByBinding);
      r := if saved.Ok? then Ok(next.value) else Err(saved.error);
    }

    lemma ActiveIsCurrent(id: RunId)
      requires Valid() && id in store.disk.runs && store.disk.runs[id].Active()
      ensures store.disk.runs[id].binding in currentByBinding && currentByBinding[store.disk.runs[id].binding] == id
    {
      hide AgentStateStore.Valid, BaseHistory, EventsExact, TurnsExact, PanesExact, OperationsIndexed;
    }

    static function Dropped<K>(index: map<K, RunId>, key: K, id: RunId): map<K, RunId> {
      if key in index && index[key] == id then index - {key} else index
    }

    /** An ended run stops being current for its binding and its pane. */
    method RemoveCurrentBinding(run: RunRecord)
      requires Valid()
      requires run.runId in store.disk.runs && !store.disk.runs[run.runId].Active()
      modifies this`currentByBinding, this`currentByPane
      ensures Valid()
      ensures currentByBinding == Dropped(old(currentByBinding), run.binding, run.runId)
      ensures currentByPane == Dropped(old(currentByPane), run.binding.pane, run.runId)
    {
      hide AgentStateStore.Valid, BaseHistory, EventsExact, TurnsExact, FenceExact, InputsExact;
      currentByBinding := Dropped(currentByBinding, run.binding, run.runId);
      currentByPane := Dropped(currentByPane, run.binding.pane, run.runId);
    }


    /** End the run a pane currently shows and forget that it is current. */
    method EndOnPane(pane: PaneInstance, at: int) returns (r: Result<RunRecord>)
      requires Valid() && pane in currentByPane
      modifies this`events, this`turns, this`currentByBinding, this`currentByPane, store
      ensures Valid()
      ensures old(currentByPane)[pane] in old(store.disk.runs)
      ensures store.LinkSound() <==> old(store.LinkSound())
      ensures SettledLinks(store.disk.runs, store.disk.operations) <==> old(SettledLinks(store.disk.runs, store.disk.operations))
      ensures store.Births() == old(store.Births())
      ensures Step(r, store.disk) == EndOutcome(store.codec, old(store.disk), old(currentByPane)[pane], at)
      ensures SameElseRuns(old(store.disk), store.disk)
      ensures r.Err? ==> store.disk == old(store.disk) && currentByBinding == old(currentByBinding) && currentByPane == old(currentByPane)
      ensures r.Ok? ==>
                var id := old(currentByPane)[pane];
                && currentByPane == old(currentByPane) - {pane}
                && r.value.runId == id && !r.value.Active()
                && (if old(store.disk.runs)[id].Active() then EndedAt(old(store.disk.runs)[id], at) == Some(r.value)
                    else r.value == old(store.disk.runs)[id])
                && (if StillOpen(old(store.disk.runs)[id]) then EndedAs(old(store.disk.runs)[id], r.value, at) else r.value == old(store.disk.runs)[id])
                && store.disk.runs == old(store.disk.runs)[id := r.value]
                && currentByBinding - {r.value.binding} == old(currentByBinding) - {r.value.binding}
    {
      hide AgentStateStore.Valid, BaseHistory, LinkHistory, Replay, EventsExact, TurnsExact, CurrentExact, OperationsIndexed,
           SettledLinks, AgentStateStore.Births, RunsIndexed;
      PaneShowsStored(pane);
      var id := currentByPane[pane];
      r := EndUnresolvedRun(id, at);
      if r.Ok? {
        RemoveCurrentBinding(r.value);
      }
    }

    lemma PaneShowsStored(pane: PaneInstance)
      requires Valid() && pane in currentByPane
      ensures currentByPane[pane] in store.disk.runs && store.disk.runs[currentByPane[pane]].binding.pane == pane
    {
      hide AgentStateStore.Valid, BaseHistory, EventsExact, TurnsExact, CurrentExact, OperationsIndexed;
    }

    /** The pane's current run ends when its process is known to be gone or replaced. */
    method ReconcileProcessForPane(pane: PaneInstance, checked: bool, observed: Option<ProcessIdentity>, at: int)
      returns (r: Result<Option<RunRecord>>)
      requires Valid()
      modifies this`events, this`turns, this`currentByBinding, this`currentByPane, store
      ensures Valid()
      ensures old(Trusted()) ==> Trusted()
      ensures store.LinkSound() <==> old(store.LinkSound())
      ensures pane in old(currentByPane) ==> old(currentByPane)[pane] in old(store.disk.runs)
      ensures !checked || pane !in old(currentByPane) || observed == Some(old(store.disk.runs)[old(currentByPane)[pane]].binding.process) ==>
                r == Ok(None) && store.disk == old(store.disk) && currentByPane == old(currentByPane)
      ensures checked && pane in old(currentByPane) ==>
                var id := old(currentByPane)[pane];
                observed != Some(old(store.disk.runs)[id].binding.process) ==>
                  var ended := EndOutcome(store.codec, old(store.disk), id, at);
                  && store.disk == ended.disk
                  && r == (if ended.result.Err? then Err(ended.result.error)
                           else Ok(if StillOpen(old(store.disk.runs)[id]) then Some(ended.result.value) else None))
                  && (r.Ok? && StillOpen(old(store.disk.runs)[id]) ==>
                        EndedAs(old(store.disk.runs)[id], r.value.value, at) && store.disk.runs == old(store.disk.runs)[id := r.value.value])
                  && (r.Ok? && !StillOpen(old(store.disk.runs)[id]) ==> store.disk.runs == old(store.disk.runs))
                  && currentByPane == if r.Ok? then old(currentByPane) - {pane} else old(currentByPane)
    {
      hide AgentStateStore.Valid, BaseHistory, LinkHistory, Replay, RunsIndexed, OperationsIndexed, SettledLinks, AgentStateStore.Births, EndOutcome;
      if pane in currentByPane {
        PaneShowsStored(pane);
      }
      if !checked || pane !in currentByPane {
        return Ok(None);
      }
      var run := store.disk.runs[currentByPane[pane]];
      if observed == Some(run.binding.process) {
        return Ok(None);
      }
      var ended := EndOnPane(pane, at);
      r := if ended.Err? then Err(ended.error) else if run.Active() then Ok(Some(ended.value)) else Ok(None);
    }

    /** A pane whose current run belongs to another binding is cleared before the hook is handled. */
    method RetireReplacedBindings(binding: AgentBinding, at: int) returns (r: Result<()>)
      requires Valid()
      modifies this`events, this`turns, this`currentByBinding, this`currentByPane, store
      ensures Valid()
      ensures store.LinkSound() <==> old(store.LinkSound())
      ensures SettledLinks(store.disk.runs, store.disk.operations) <==> old(SettledLinks(store.disk.runs, store.disk.operations))
      ensures store.Births() == old(store.Births())
      ensures Step(r, store.disk) == RetireOutcome(store.codec, old(store.disk), old(currentByPane), binding, at)
      ensures currentByPane == if r.Ok? then PanesAfterRetire(old(store.disk), old(currentByPane), binding) else old(currentByPane)
      ensures SameElseRuns(old(store.disk), store.disk)
      ensures Quieted(old(store.disk.runs), store.disk.runs)
      ensures binding in currentByBinding <==> binding in old(currentByBinding)
      ensures binding in currentByBinding ==> currentByBinding[binding] == old(currentByBinding)[binding]
      ensures r.Ok? && binding.pane in currentByPane ==>
                currentByPane[binding.pane] in store.disk.runs && store.disk.runs[currentByPane[binding.pane]].binding == binding
    {
      hide AgentStateStore.Valid, BaseHistory, LinkHistory, Replay, RunsIndexed, OperationsIndexed, SettledLinks, AgentStateStore.Births, Refs, EndOutcome;
      if binding.pane !in currentByPane {
        return Ok(());
      }
      PaneShowsStored(binding.pane);
      ghost var before := store.disk.runs;
      var run := store.disk.runs[currentByPane[binding.pane]];
      if run.binding == binding {
        return Ok(());
      }
      var ended := EndOnPane(binding.pane, at);
      if ended.Ok? {
        assert forall b :: b in currentByBinding - {run.binding} <==> b in old(currentByBinding) - {run.binding};
        assert binding in currentByBinding <==> binding in currentByBinding - {run.binding};
        assert binding in currentByBinding ==> (currentByBinding - {run.binding})[binding] == currentByBinding[binding];
        assert binding in old(currentByBinding) ==> (old(currentByBinding) - {run.binding})[binding] == old(currentByBinding)[binding];
      }
      r := if ended.Ok? then Ok(()) else Err(ended.error);
    }

    // ---------------------------------------------------------------- provider hooks

    /** Apply a hook to a stored run and save the result; the sixteen-reference rotation never gets past the store. */
    method ApplyToRun(id: RunId, obs: Observation, resolutionId: ResolutionId, reindex: bool) returns (r: Result<(RunRecord, Disposition)>)
      requires Valid() && id in store.disk.runs && ReferenceFree(store.disk.runs, id, obs)
      requires !reindex ==> obs.CorrectnessRef().None? || store.disk.runs[id].HasEvent(obs.CorrectnessRef().value)
      modifies this`events, this`turns, this`currentByBinding, this`currentByPane, store
      ensures Valid()
      ensures store.LinkSound() <==> old(store.LinkSound())
      ensures SettledLinks(store.disk.runs, store.disk.operations) <==> old(SettledLinks(store.disk.runs, store.disk.operations))
      ensures Step(First(r), store.disk) == ApplyOutcome(store.codec, old(store.disk), id, obs, resolutionId)
      ensures SameElseRuns(old(store.disk), store.disk)
      ensures r.Err? ==> store.disk == old(store.disk)
      ensures r.Ok? ==>
                && Reduce(store.codec, old(store.disk.runs)[id], obs, resolutionId) == Some(r.value)
                && !Evicts(old(store.disk.runs)[id], obs)
                && r.value.0.runId == id
                && store.disk.runs == old(store.disk.runs)[id := r.value.0]
    {
      hide AgentStateStore.Valid, BaseHistory, LinkHistory, Replay, RunVerdict, Admissible, RunReplacement, Refs, RunsIndexed, OperationsIndexed,
           SettledLinks, CurrentAfter, PanesAfter, AgentStateStore.Births, Reduce, Evicts, ValidRun, ReferenceFree, RunRecord.HasEvent;
      var run := store.disk.runs[id];
      var applied, next := ApplyObservation(store.codec, run, obs, resolutionId);
      if applied.None? {
        return Err(ProviderEventConflict);
      }
      store.TiedWhenValid();
      ReduceIsAdmissible(store.codec, store.journal, store.disk, id, obs, resolutionId);
      var saved;
      if reindex {
        saved := ReplaceIndexed(next);
      } else {
        saved := ReplaceUnindexed(next);
      }
      r := if saved.Ok? then Ok((next, applied.value)) else Err(saved.error);
    }

    /** The unsettled operation this prompt hook accounts for: found exactly when there is one. */
    method MatchingOperation(binding: AgentBinding, runSeq: nat, obs: Observation) returns (r: Result<Option<OperationRecord>>)
      requires Valid()
      ensures r.Err? <==> obs.promptDigest.None?
      ensures r.Ok? && r.value.Some? ==> OperationStored(store.disk, r.value.value) && AccountsFor(r.value.value, binding, runSeq, obs)
      ensures r.Ok? && r.value.None? ==>
                forall id :: id in store.disk.operations ==> !AccountsFor(store.disk.operations[id], binding, runSeq, obs)
      ensures r.Ok? ==>
                Explained(store.disk.operations, binding, runSeq, obs) == if r.value.Some? then Some(r.value.value.operationId) else None
    {
      hide AgentStateStore.Valid, RunsIndexed, InputsExact, FenceExact, SequenceMatches, Claims, AccountsFor;
      if obs.promptDigest.None? {
        return Err(Invalid);
      }
      FenceFindsClaim(store.disk.operations, fences, binding, runSeq, obs);
      AllClaimsAreAccounts(store.disk.operations, binding, runSeq, obs);
      var key := TargetOf(FromAgent(binding));
      if key !in fences {
        return Ok(None);
      }
      var o := store.disk.operations[fences[key]];
      store.OperationIsOk(fences[key]);
      r := Ok(if Claims(o, binding, runSeq, obs) then Some(o) else None);
    }

    /** One retention pass with room reserved for one more run; the indexes forget what it removed. */
    method CollectRetention(at: int, pane: PaneInstance) returns (r: Result<()>, ghost gone: set<RunId>)
      requires Valid()
      modifies this`events, this`turns, this`currentByBinding, this`currentByPane, store
      ensures Valid()
      ensures old(Trusted()) ==> Trusted()
      ensures forall id :: id in gone ==> id in old(store.disk.runs) && !old(store.disk.runs)[id].Active() && id !in old(currentByPane).Values
      ensures store.LinkSound() <==> old(store.LinkSound()) && forall id :: id in gone ==> ClaimSettled(old(store.disk.runs)[id], old(store.disk.operations))
      ensures store.Births() == old(store.Births())
      ensures SameElseResponses(old(store.disk), store.disk)
      ensures Step(if r.Ok? then Ok(gone) else Err(r.error), store.disk) ==
              RetentionOutcome(store.codec, old(store.disk), old(currentByPane).Values, at, pane)
      ensures store.disk.runs == old(store.disk.runs) - gone
      ensures r.Err? ==> gone == {}
      ensures r.Ok? ==> Removes(store.codec, old(store.disk.runs), old(currentByPane).Values, at, Some(pane), NEW_RUN_RESERVE, gone)
      ensures r.Ok? ==> GoneForCause(store.codec, old(store.disk.runs), old(currentByPane).Values, at, Some(pane), Reserve(1, 16 * 1024), gone)
    {
      hide AgentStateStore.Valid, BaseHistory, LinkHistory, Replay, EventsExact, TurnsExact, CurrentExact, PanesExact, FenceExact, InputsExact,
           SettledLinks, AgentStateStore.Births, Fits, Removes, ClaimSettled, Removable, RunRecord.Active, RetentionSet;
      gone := {};
      ghost var runs, protected := store.disk.runs, currentByPane.Values;
      assert runs - {} == runs;
      SettledClaims(runs, store.disk.operations);
      FewPanes();
      var cleanup := store.CollectRunRetention(at, currentByPane.Values, NEW_RUN_RESERVE, Some(pane));
      if cleanup.Err? {
        return Err(cleanup.error), gone;
      }
      gone := cleanup.value;
      RemovesIsUnique(store.codec, runs, protected, at, Some(pane), NEW_RUN_RESERVE, gone, gone);
      RemovesOnlyIdle(store.codec, runs, protected, at, Some(pane), NEW_RUN_RESERVE, gone);
      SettledAfterRemoval(runs, store.disk.operations, gone);
      RemovedIs(old(store.disk), store.disk, gone);
      if cleanup.value == {} {
        return Ok(()), gone;
      }
      r := ForgetRuns(cleanup.value, runs);
    }

    lemma FewPanes()
      requires Valid()
      ensures |currentByPane.Values| <= RUN_STORE_MAX_RECORDS
    {
      hide AgentStateStore.Valid, BaseHistory, EventsExact, TurnsExact, CurrentExact, FenceExact, InputsExact,
           EventsUnique, TurnsUnique, SequencesUnique, ActiveNewest, DistinctEvents;
      store.RunsAreDistinct();
      CardOfPart(store.disk.runs.Keys, currentByPane.Values);
    }

    /** Drop every index entry of the removed runs. The bound on the event index then still holds, so the check never fails. */
    method ForgetRuns(gone: set<RunId>, ghost before: Runs) returns (r: Result<()>)
      requires store.Valid() && store.BaseSound() && OperationsIndexed() && Indexes(before) && store.disk.runs == before - gone
      modifies this`events, this`turns, this`currentByBinding, this`currentByPane
      ensures Valid() && r == Ok(())
    {
      hide AgentStateStore.Valid, AgentStateStore.BaseSound, EventsExact, TurnsExact, CurrentExact, PanesExact, FenceExact, InputsExact, Retained;
      IndexesAfterRemoval(before, gone, events, turns, currentByBinding, currentByPane);
      turns := Retained(turns, gone);
      events := Retained(events, gone);
      currentByBinding := Retained(currentByBinding, gone);
      currentByPane := Retained(currentByPane, gone);
      EventIndexIsBounded();
      if |events| > EVENT_INDEX_LIMIT {
        return Err(Capacity);
      }
      r := Ok(());
    }

    lemma EventIndexIsBounded()
      requires store.Valid() && store.BaseSound() && EventsExact(store.disk.runs, events)
      ensures |events| <= EVENT_INDEX_LIMIT
    {
      hide AgentStateStore.Valid, BaseHistory, EventsExact, EventsUnique, TurnsUnique, SequencesUnique, ActiveNewest, DistinctEvents;
      store.RunsAreDistinct();
      EventsBounded(store.disk.runs, events);
    }

    /** Before a new run starts, the binding's current run must be older, and is ended. */
    method EndPrevious(binding: AgentBinding, runSeq: nat, at: int) returns (r: Result<()>)
      requires Valid()
      modifies store
      ensures Valid()
      ensures store.LinkSound() <==> old(store.LinkSound())
      ensures SettledLinks(store.disk.runs, store.disk.operations) <==> old(SettledLinks(store.disk.runs, store.disk.operations))
      ensures store.Births() == old(store.Births())
      ensures Step(r, store.disk) == PreviousOutcome(store.codec, old(store.disk), EntryOf(currentByBinding, binding), runSeq, at)
      ensures SameElseRuns(old(store.disk), store.disk) && Quieted(old(store.disk.runs), store.disk.runs)
      ensures r.Ok? ==> NoneActive(store.disk.runs, binding)
      ensures r.Ok? && binding in currentByBinding && currentByBinding[binding] in old(store.disk.runs) ==>
                old(store.disk.runs)[currentByBinding[binding]].runSeq < runSeq
    {
      hide AgentStateStore.Valid, BaseHistory, LinkHistory, Replay, EventsExact, TurnsExact, PanesExact, FenceExact, InputsExact,
           SettledLinks, AgentStateStore.Births, RunVerdict, RunReplacement, Admissible, Refs;
      if binding !in currentByBinding {
        return Ok(());
      }
      var id := currentByBinding[binding];
      var previous := store.disk.runs[id];
      if previous.runSeq >= runSeq {
        return Err(ProviderEventConflict);
      }
      if previous.Active() {
        var next := EndedAt(previous, at);
        if next.None? {
          return Err(Invalid);
        }
        store.TiedWhenValid();
        EndingIsAdmissible(store.codec, store.journal, store.disk, id, at);
        var saved := ReplaceUnindexed(next.value);
        return if saved.Ok? then Ok(()) else Err(saved.error);
      }
      r := Ok(());
    }

    /** Crediting the new run to the operation it explains keeps the links sound exactly when no stored run claims that operation. */
    lemma EnrollmentIsSound(run: RunRecord, obs: Observation)
      requires Valid() && BornOf(run, obs) && run.runId !in store.Births()
      requires run.operationId.Some? ==>
                 run.operationId.value in store.disk.operations && Claims(store.disk.operations[run.operationId.value], run.binding, run.runSeq, obs)
      ensures store.LinkSound() ==>
                (LinkLawful(store.Past(), CreateRun(run, obs)) <==> (run.operationId.Some? ==> Unlinked(store.disk.runs, run.operationId.value)))
    {
      hide AgentStateStore.Valid, BaseHistory, LinkHistory, Replay, RunsIndexed, OperationsIndexed, BornOf, Claims, LinkInv, LinkLawful;
      if store.LinkSound() {
        store.TiedWhenValid();
        if run.operationId.Some? {
          store.OperationIsOk(run.operationId.value);
        }
        LinkHistoryKeeps(store.codec, store.journal);
        CreditIsLawful(store.Past(), run, obs);
      }
    }

    /** Create and index the run, credited to `op` when the hook explains that operation. */
    method Enroll(binding: AgentBinding, runSeq: nat, op: Option<OperationId>, obs: Observation, newId: RunId, resolutionId: ResolutionId)
      returns (r: Result<RunRecord>)
      requires Valid() && newId !in store.disk.runs && newId !in store.Births()
      requires ReferenceNew(store.disk.runs, obs) && TurnNew(store.disk.runs, binding, obs)
      requires SequenceNew(store.disk.runs, binding, runSeq) && NoneActive(store.disk.runs, binding)
      requires op.Some? ==> op.value in store.disk.operations && Claims(store.disk.operations[op.value], binding, runSeq, obs)
      modifies this`events, this`turns, this`currentByBinding, this`currentByPane, store
      ensures Valid()
      ensures Step(r, store.disk) == EnrollOutcome(store.codec, old(store.disk), binding, runSeq, op, obs, newId, resolutionId)
      ensures r.Ok? ==>
                && NewRun(store.codec, old(store.disk.meta.generation), newId, binding, runSeq, op, obs, resolutionId) == Some(r.value)
                && r.value.runId == newId && r.value.operationId == op && r.value.binding == binding && r.value.runSeq == runSeq
                && r.value.createdAt == obs.observedAt >= 0
                && store.disk.runs == old(store.disk.runs)[newId := r.value] && SameElseRuns(old(store.disk), store.disk)
      ensures r.Err? ==> store.disk == old(store.disk)
      ensures r == Err(Capacity) ==>
                var run := NewRun(store.codec, old(store.disk.meta.generation), newId, binding, runSeq, op, obs, resolutionId);
                run.Some? && run.value.runId == newId
                && (store.codec.runSize(run.value) > RUN_RECORD_MAX_BYTES || !RunsFit(store.codec, old(store.disk.runs)[newId := run.value]))
      ensures store.LinkSound() <==> old(store.LinkSound()) && (r.Ok? && op.Some? ==> Unlinked(old(store.disk.runs), op.value))
    {
      hide AgentStateStore.Valid, BaseHistory, LinkHistory, Replay, RunsIndexed, OperationsIndexed, SettledLinks, BornOf, Claims, LinkLawful,
           NewRun, ReferenceNew, TurnNew, SequenceNew, NoneActive, Newcomer, DistinctEvents, ValidRun, RunReplacement, RunsFit, CurrentAfter,
           RunRecord.HasEvent, AgentStateStore.Births, Unlinked, RunVerdict;
      var run := NewRun(store.codec, store.disk.meta.generation, newId, binding, runSeq, op, obs, resolutionId);
      if run.None? {
        return Err(Invalid);
      }
      NewRunShape(store.codec, store.disk.meta.generation, newId, binding, runSeq, op, obs, resolutionId);
      NewRunIsNewcomer(store.disk.runs, run.value, obs);
      EnrollmentIsSound(run.value, obs);
      OnlyFullRefusesNew(store.codec, store.disk, run.value);
      var saved := CreateIndexed(run.value, obs);
      r := if saved.Ok? then Ok(run.value) else Err(saved.error);
    }

    /** Retention first: then only a record over the record limit, or protected runs filling the store, can refuse the new run for room. */
    method RoomThenEnroll(binding: AgentBinding, runSeq: nat, op: Option<OperationId>, obs: Observation, newId: RunId, resolutionId: ResolutionId)
      returns (r: Result<RunRecord>, ghost gone: set<RunId>)
      requires Valid() && newId !in store.disk.runs && newId !in store.Births()
      requires ReferenceNew(store.disk.runs, obs) && TurnNew(store.disk.runs, binding, obs)
      requires SequenceNew(store.disk.runs, binding, runSeq) && NoneActive(store.disk.runs, binding)
      requires op.Some? ==> op.value in store.disk.operations && Claims(store.disk.operations[op.value], binding, runSeq, obs)
      modifies this`events, this`turns, this`currentByBinding, this`currentByPane, store
      ensures Valid()
      ensures Step(r, store.disk) ==
              var room := RetentionOutcome(store.codec, old(store.disk), old(currentByPane).Values, obs.observedAt, binding.pane);
              if room.result.Err? then Step(Err(room.result.error), room.disk)
              else EnrollOutcome(store.codec, room.disk, binding, runSeq, op, obs, newId, resolutionId)
      ensures store.LinkSound() <==>
              old(store.LinkSound()) && KeepsClaims(old(store.disk.runs), old(store.disk.operations), gone, if r.Ok? then op else None)
      ensures GoneAndCredited(old(store.disk.runs), store.disk.runs, newId, gone, if r.Ok? then op else None)
      ensures old(Trusted()) ==> store.LinkSound()
      ensures old(Trusted()) && r.Err? ==> Trusted()
      ensures old(Trusted()) && r.Ok? ==> SettledExcept(store.disk.runs, store.disk.operations, newId)
      ensures store.disk.operations == old(store.disk.operations)
      ensures r.Ok? ==>
                && NewRun(store.codec, old(store.disk.meta.generation), newId, binding, runSeq, op, obs, resolutionId) == Some(r.value)
                && r.value.runId == newId && r.value.operationId == op && RunStored(store.disk, r.value)
                && r.value.binding == binding && r.value.runSeq == runSeq
                && r.value.createdAt == obs.observedAt >= 0
      ensures r == Err(Capacity) && Fits(store.codec, old(store.disk.runs), Removable(old(store.disk.runs), old(currentByPane).Values), NEW_RUN_RESERVE)
              && |old(currentByPane).Values| <= RUN_STORE_MAX_RECORDS ==>
                var run := NewRun(store.codec, old(store.disk.meta.generation), newId, binding, runSeq, op, obs, resolutionId);
                run.Some? && store.codec.runSize(run.value) > RUN_RECORD_MAX_BYTES
    {
      hide AgentStateStore.Valid, BaseHistory, LinkHistory, Replay, RunsIndexed, OperationsIndexed, SettledLinks, SettledExcept, Claims,
           NewRun, ReferenceNew, TurnNew, SequenceNew, NoneActive, RunsFit, AgentStateStore.Births, Removes, Fits, Removable, EnrollOutcome,
           RetentionSet, Unlinked, ClaimSettled;
      ghost var before, operations := store.disk.runs, store.disk.operations;
      ghost var protected := currentByPane.Values;
      PartKeepsAll(before, binding, runSeq, obs);
      var room;
      room, gone := CollectRetention(obs.observedAt, binding.pane);
      assert gone <= before.Keys;
      if room.Err? {
        NoneGone(before, store.disk.runs, newId);
        return Err(room.error), gone;
      }
      OnlySettledOrOpen(operations, op, binding, runSeq, obs);
      RoomForOneMore(store.codec, before, protected, obs.observedAt, Some(binding.pane), gone);
      ghost var left := store.disk.runs;
      r := Enroll(binding, runSeq, op, obs, newId, resolutionId);
      EnrolledAfter(before, gone, if r.Ok? then r.value else BlankRun(0, newId, binding, runSeq, op, obs));
      if r.Ok? && SettledLinks(left, store.disk.operations) {
        SettledAfterCreate(left, store.disk.operations, r.value);
      }
      EnrolledClaims(before, operations, gone, op, binding, runSeq, obs);
      SettledKeepsClaims(before, operations, gone, op);
    }

    /** The operation a new run of this hook is credited to; a prompt hook must carry a digest. */
    method CreditFor(binding: AgentBinding, runSeq: nat, obs: Observation) returns (r: Result<Option<OperationId>>)
      requires Valid()
      ensures r.Err? <==> obs.hook == UserPromptSubmit && obs.promptDigest.None?
      ensures r.Err? ==> r.error == Invalid
      ensures r.Ok? ==> r.value == if obs.hook == UserPromptSubmit then Explained(store.disk.operations, binding, runSeq, obs) else None
      ensures r.Ok? && r.value.Some? ==>
                && r.value.value in store.disk.operations
                && Claims(store.disk.operations[r.value.value], binding, runSeq, obs)
                && AccountsFor(store.disk.operations[r.value.value], binding, runSeq, obs)
      ensures r.Ok? && r.value.None? && obs.hook == UserPromptSubmit ==>
                forall id :: id in store.disk.operations ==> !AccountsFor(store.disk.operations[id], binding, runSeq, obs)
    {
      hide AgentStateStore.Valid, RunsIndexed, OperationsIndexed, Claims, AccountsFor, Explained;
      AllClaimsAreAccounts(store.disk.operations, binding, runSeq, obs);
      r := Ok(None);
      if obs.hook == UserPromptSubmit {
        var found := MatchingOperation(binding, runSeq, obs);
        if found.Err? {
          return Err(Invalid);
        }
        if found.value.Some? {
          r := Ok(Some(found.value.value.operationId));
        }
      }
    }

    /** A hook that may start a run does: the previous run ends, and an explained operation is credited. */
    method StartRun(binding: AgentBinding, runSeq: nat, obs: Observation, newId: RunId, resolutionId: ResolutionId)
      returns (r: Result<RunRecord>, ghost gone: set<RunId>)
      requires Valid() && newId !in store.disk.runs && newId !in store.Births()
      requires ReferenceNew(store.disk.runs, obs) && TurnNew(store.disk.runs, binding, obs)
      requires SequenceAllocated(store.disk.runs, currentByBinding, binding, runSeq)
      modifies this`events, this`turns, this`currentByBinding, this`currentByPane, store
      ensures Valid()
      ensures Step(r, store.disk) == StartOutcome(store.codec, old(store.disk), EntryOf(old(currentByBinding), binding), old(currentByPane).Values,
                                                  binding, runSeq, obs, newId, resolutionId)
      ensures store.LinkSound() <==>
              old(store.LinkSound()) && KeepsClaims(old(store.disk.runs), old(store.disk.operations), gone, if r.Ok? then r.value.operationId else None)
      ensures GoneAndCredited(old(store.disk.runs), store.disk.runs, newId, gone, if r.Ok? then r.value.operationId else None)
      ensures old(Trusted()) ==> store.LinkSound()
      ensures old(Trusted()) && r.Err? ==> Trusted()
      ensures old(Trusted()) && r.Ok? ==> SettledExcept(store.disk.runs, store.disk.operations, newId)
      ensures store.disk.operations == old(store.disk.operations)
      ensures r.Ok? ==>
                && NewRun(store.codec, old(store.disk.meta.generation), newId, binding, runSeq, r.value.operationId, obs, resolutionId) == Some(r.value)
                && RunStored(store.disk, r.value) && r.value.runId == newId && r.value.binding == binding && r.value.runSeq == runSeq
                && r.value.createdAt == obs.observedAt >= 0
                && (r.value.operationId.Some? ==>
                      && obs.hook == UserPromptSubmit
                      && r.value.operationId.value in store.disk.operations
                      && AccountsFor(store.disk.operations[r.value.operationId.value], binding, runSeq, obs))
                && (r.value.operationId.None? && obs.hook == UserPromptSubmit ==>
                      forall id :: id in store.disk.operations ==> !AccountsFor(store.disk.operations[id], binding, runSeq, obs))
    {
      hide AgentStateStore.Valid, BaseHistory, LinkHistory, Replay, RunsIndexed, OperationsIndexed, SettledLinks, SettledExcept, Claims, AccountsFor,
           NewRun, ReferenceNew, TurnNew, SequenceNew, NoneActive, AgentStateStore.Births, Fits, Removable, Quieted, RetentionOutcome,
           PreviousOutcome, EnrollOutcome, Explained, KeepsClaims, GoneAndCredited, AgentStateStore.LinkSound, AgentStateStore.BaseSound,
           LinkSettled, Unlinked;
      gone := {};
      ghost var before := store.disk.runs;
      NothingClaimed(store.disk.runs, store.disk.operations);
      var ended := EndPrevious(binding, runSeq, obs.observedAt);
      QuietedAllClaims(before, store.disk.runs, store.disk.operations);
      QuietedKeys(before, store.disk.runs);
      NoneGone(before, store.disk.runs, newId);
      if ended.Err? {
        return Err(ended.error), gone;
      }
      QuietedKeeps(before, store.disk.runs, binding, runSeq, obs);
      ghost var quieted := store.disk.runs;
      var credit := CreditFor(binding, runSeq, obs);
      if credit.Err? {
        return Err(Invalid), gone;
      }
      r, gone := RoomThenEnroll(binding, runSeq, credit.value, obs, newId, resolutionId);
      QuietedThenGone(before, quieted, store.disk.runs, newId, gone, if r.Ok? then credit.value else None);
    }

    /** Store the response a Stop carries; whatever the outcome, only response records and bodies change. */
    method KeepResponseOf(id: RunId, response: Response, at: int) returns (r: Result<()>)
      requires Valid()
      modifies store
      ensures Valid()
      ensures store.LinkSound() <==> old(store.LinkSound())
      ensures SettledLinks(store.disk.runs, store.disk.operations) <==> old(SettledLinks(store.disk.runs, store.disk.operations))
      ensures SameElseResponses(old(store.disk), store.disk) && OnlyArtifacts(old(store.disk.runs), store.disk.runs)
      ensures Step(r, store.disk) ==
              var kept := CandidateOutcome(store.codec, old(store.disk), id, response, PROVIDER_HOOK, at); Step(Done(kept.result), kept.disk)
      ensures r.Ok? ==> id in store.disk.runs && store.disk.runs[id].artifact.Some? && DescribesResponse(store.disk.runs[id].artifact.value, response)
    {
      hide AgentStateStore.Valid, BaseHistory, LinkHistory, Replay, EventsExact, TurnsExact, CurrentExact, PanesExact, FenceExact, InputsExact,
           SettledLinks, ResponseKept, Evictable, ExpireAll, CandidateOutcome, EvictionStuck;
      ghost var before := store.disk;
      var kept;
      ghost var gone, stored;
      kept, gone, stored := store.StoreArtifactCandidate(id, response, PROVIDER_HOOK, at);
      ghost var after := store.disk;
      assert OnlyArtifacts(before.runs, after.runs) by {
        if kept.Err? {
          ExpiringOnlyArtifacts(before.runs, id, gone);
        } else if before.runs[id].artifact.None? || before.runs[id].artifact.value.stored == Unavailable {
          KeepingOnlyArtifacts(before, after, id, response, PROVIDER_HOOK, at, gone, stored);
        }
      }
      OnlyArtifactsIndexed(before.runs, after.runs, events, turns, currentByBinding, currentByPane);
      OnlyArtifactsSettled(before.runs, after.runs, after.operations);
      r := if kept.Ok? then Ok(()) else Err(kept.error);
    }

    /** The response part of a Stop: a body, or the note that there was none. */
    method RecordResponse(run: RunRecord, obs: Observation) returns (r: Result<RunRecord>)
      requires Valid() && RunStored(store.disk, run)
      modifies this`events, this`turns, this`currentByBinding, this`currentByPane, store
      ensures Valid()
      ensures store.LinkSound() <==> old(store.LinkSound())
      ensures SettledLinks(store.disk.runs, store.disk.operations) <==> old(SettledLinks(store.disk.runs, store.disk.operations))
      ensures SameElseResponses(old(store.disk), store.disk) && OnlyArtifacts(old(store.disk.runs), store.disk.runs)
      ensures Step(r, store.disk) == RecordOutcome(store.codec, old(store.disk), run, obs)
      ensures r.Ok? ==> RunStored(store.disk, r.value) && r.value.runId == run.runId && r.value.artifact.Some? && SameButArtifact(run, r.value)
      ensures r.Ok? && obs.response.Some? ==> DescribesResponse(r.value.artifact.value, obs.response.value)
      ensures r.Ok? && obs.response.None? ==>
                if run.artifact.Some? then r.value == run else UnansweredAs(run, r.value, obs.observedAt)
    {
      hide AgentStateStore.Valid, BaseHistory, LinkHistory, Replay, EventsExact, TurnsExact, CurrentExact, PanesExact, FenceExact, InputsExact,
           SettledLinks, RunVerdict, Admissible, RunReplacement, Refs, ValidArtifact, InScope, EventsAfter, TurnsAfter, CurrentAfter, PanesAfter,
           AgentStateStore.Births, CandidateOutcome, DescribesResponse, UnansweredAs;
      if obs.response.Some? {
        var kept := KeepResponseOf(run.runId, obs.response.value, obs.observedAt);
        if kept.Err? {
          return Err(kept.error);
        }
      } else if run.artifact.None? {
        var next := Unanswered(run, obs.observedAt);
        if run.outcome != Completed || !ValidArtifact(NoResponse(run, obs.observedAt)) || next.None? {
          return Err(Invalid);
        }
        store.TiedWhenValid();
        UnansweredIsAdmissible(store.codec, store.journal, store.disk, run.runId, obs.observedAt);
        UnansweredIsAs(run, obs.observedAt);
        var saved := ReplaceUnindexed(next.value);
        if saved.Err? {
          return Err(saved.error);
        }
      }
      var stored := store.disk.runs[run.runId];
      ScopeAfterSave(store.disk.runs, stored);
      assert store.disk.runs[run.runId := stored] == store.disk.runs;
      var indexed := IndexLawful(stored, store.disk.runs);
      r := if indexed.Ok? then Ok(stored) else Err(Corrupt);
    }

    /** The tail common to every handled hook: settle the claim, keep the response, classify the prompt. */
    method Finish(run: RunRecord, obs: Observation, disposition: Disposition) returns (r: Result<ApplyResult>)
      requires Valid() && RunStored(store.disk, run)
      modifies this, store
      ensures Valid()
      ensures Step(ResultRun(r), store.disk) == FinishOutcome(store.codec, old(store.disk), run, obs)
      ensures store.LinkSound() <==> old(store.LinkSound())
      // with at most this run's claim open, everything is settled afterwards, unless the operation store is full
      ensures old(store.LinkSound() && SettledExcept(store.disk.runs, store.disk.operations, run.runId)) ==>
                (obs.observedAt >= 0 ==> Trusted() || r == Err(Capacity)) && (LinkSettled(run, old(store.disk.operations)) ==> Trusted())
      ensures r.Ok? ==>
                && r.value.run.Some? && Handled(r.value, obs) && SameButArtifact(run, r.value.run.value) && r.value.disposition == disposition
                && (obs.hook != Stop ==> r.value.run.value == run)
      ensures SameClaims(old(store.disk.runs), store.disk.runs)
      // a hook that accounts for the operation its run claims reports dispatched input
      ensures (r.Ok? && obs.hook == UserPromptSubmit && run.operationId.Some? && run.operationId.value in old(store.disk.operations)
               && AccountsFor(old(store.disk.operations)[run.operationId.value], run.binding, run.runSeq, obs)) ==>
                r.value.dispatched
    {
      hide AgentStateStore.Valid, AgentStateStore.BaseSound, AgentStateStore.LinkSound, BaseHistory, LinkHistory, Replay, RunsIndexed, OperationsIndexed,
           SettledLinks, OnlyArtifacts, FenceAfter, Handled, ConfirmOutcome, RecordOutcome, AccountsFor, ValidOperation, SameRequest;
      ghost var runs, operations := store.disk.runs, store.disk.operations;
      store.OperationsAreValid();
      var confirmed := ConfirmLinkedOperation(run, obs.observedAt);
      if confirmed.Err? {
        return Err(confirmed.error);
      }
      NowSettled(runs, store.disk.operations, run);
      var final := run;
      if obs.hook == Stop {
        var recorded := RecordResponse(run, obs);
        ArtifactsKeepClaims(runs, store.disk.runs);
        if recorded.Err? {
          return Err(recorded.error);
        }
        final := recorded.value;
      }
      var report := Report(final, confirmed.value, obs, disposition);
      r := Ok(report);
      if run.operationId.Some? && run.operationId.value in operations && AccountsFor(operations[run.operationId.value], run.binding, run.runSeq, obs) {
        AccountedStaysSeen(operations[run.operationId.value], confirmed.value.value, run.binding, run.runSeq, obs);
      }
    }

    /** What is reported of a hook once everything about it is stored. */
    method Report(run: RunRecord, operation: Option<OperationRecord>, obs: Observation, disposition: Disposition) returns (a: ApplyResult)
      requires Valid() && RunStored(store.disk, run)
      requires obs.hook == Stop ==>
                 run.artifact.Some? && (obs.response.Some? ==> DescribesResponse(run.artifact.value, obs.response.value))
      requires operation.Some? <==> run.operationId.Some?
      requires operation.Some? ==>
                 && OperationStored(store.disk, operation.value) && operation.value.operationId == run.operationId.value
                 && operation.value.state == PromptConfirmed && operation.value.runId == Some(run.runId)
                 && (store.LinkSound() ==> operation.value.binding == FromAgent(run.binding))
      ensures Handled(a, obs) && a.run == Some(run) && a.operation == operation && a.disposition == disposition
      // the prompt of the operation it confirmed is dispatched input, of course
      ensures (obs.hook == UserPromptSubmit && operation.Some? && operation.value.binding == FromAgent(run.binding)
               && obs.promptDigest == Some(operation.value.promptDigest) && operation.value.createdAt <= obs.observedAt) ==> a.dispatched
    {
      hide AgentStateStore.Valid, AgentStateStore.BaseSound, AgentStateStore.LinkSound, RunsIndexed, OperationsIndexed, SentPrompt;
      var dispatched := MatchesDispatchInput(run.binding, obs, false);
      a := ApplyResult(Some(run), operation, disposition, dispatched);
      if operation.Some? && operation.value.binding == FromAgent(run.binding) {
        ConfirmedIsDispatched(operation.value, run.binding, obs);
      }
    }

    lemma ConfirmedIsDispatched(o: OperationRecord, agent: AgentBinding, obs: Observation)
      requires OperationStored(store.disk, o) && o.state == PromptConfirmed && o.binding == FromAgent(agent)
      ensures obs.promptDigest == Some(o.promptDigest) && o.createdAt <= obs.observedAt ==>
                exists id :: id in store.disk.operations && SentPrompt(store.disk.operations[id], agent, obs, false)
    {
      hide SentPrompt;
      if obs.promptDigest == Some(o.promptDigest) && o.createdAt <= obs.observedAt {
        ConfirmedIsSentPrompt(o, agent, obs);
        assert SentPrompt(store.disk.operations[o.operationId], agent, obs, false);
      }
    }

    /** Handle a hook for a run that is already stored. */
    method ObserveStored(id: RunId, obs: Observation, resolutionId: ResolutionId, reindex: bool, mayStart: bool) returns (r: Result<ApplyResult>)
      requires Valid() && id in store.disk.runs && ReferenceFree(store.disk.runs, id, obs)
      requires !reindex ==> obs.CorrectnessRef().None? || store.disk.runs[id].HasEvent(obs.CorrectnessRef().value)
      modifies this, store
      ensures Valid()
      ensures old(Trusted()) ==> Trusted()
      ensures Step(ResultRun(r), store.disk) == StoredOutcome(store.codec, old(store.disk), id, obs, resolutionId)
      ensures store.LinkSound() <==> old(store.LinkSound())
      ensures r.Ok? ==> r.value.run.Some? && RunStored(store.disk, r.value.run.value) && r.value.run.value.runId == id
      ensures r.Ok? ==> Handled(r.value, obs)
      ensures r.Ok? ==> AppliedTo(store.codec, old(store.disk.runs)[id], obs, resolutionId, r.value.run.value)
      ensures store.disk.runs.Keys == old(store.disk.runs).Keys
      ensures r.Ok? ==> r.value.disposition == Reduce(store.codec, old(store.disk.runs)[id], obs, resolutionId).value.1
                        || (mayStart && r.value.disposition == EvidenceOnly && !r.value.run.value.Active())
    {
      hide AgentStateStore.Valid, BaseHistory, LinkHistory, Replay, RunsIndexed, OperationsIndexed, SettledLinks, SettledExcept, Explains,
           Reduce, Evicts, ReferenceFree, RunRecord.HasEvent, ApplyOutcome, FinishOutcome;
      var applied := ApplyToRun(id, obs, resolutionId, reindex);
      if applied.Err? {
        return Err(applied.error);
      }
      var (run, disposition) := applied.value;
      if mayStart && !run.Active() {
        disposition := EvidenceOnly;
      }
      SettledIsExcept(store.disk.runs, store.disk.operations, run);
      r := Finish(run, obs, disposition);
    }

    /** What every handled hook reports: the stored run, the operation it confirmed, and whether the prompt was dispatched input. */
    ghost predicate Handled(a: ApplyResult, obs: Observation)
      reads store
    {
      && a.run.Some?
      && RunStored(store.disk, a.run.value)
      && (a.operation.Some? <==> a.run.value.operationId.Some?)
      && (a.operation.Some? ==>
            && OperationStored(store.disk, a.operation.value) && a.operation.value.operationId == a.run.value.operationId.value
            && a.operation.value.state == PromptConfirmed && a.operation.value.runId == Some(a.run.value.runId)
            && (store.LinkSound() ==> a.operation.value.binding == FromAgent(a.run.value.binding)))
      && (a.dispatched <==>
            && obs.hook == UserPromptSubmit
            && exists id :: id in store.disk.operations && SentPrompt(store.disk.operations[id], a.run.value.binding, obs, false))
      // the prompt of the operation it confirmed is dispatched input, of course
      && ((obs.hook == UserPromptSubmit && a.operation.Some? && a.operation.value.binding == FromAgent(a.run.value.binding)
           && obs.promptDigest == Some(a.operation.value.promptDigest) && a.operation.value.createdAt <= obs.observedAt) ==> a.dispatched)
      && (obs.hook == Stop ==>
            && a.run.value.artifact.Some?
            && (obs.response.Some? ==> DescribesResponse(a.run.value.artifact.value, obs.response.value)))
    }

    /** A hook whose reference is not known yet. */
    method ObserveFresh(binding: AgentBinding, runSeq: nat, obs: Observation, newId: RunId, resolutionId: ResolutionId)
      returns (r: Result<ApplyResult>, ghost gone: set<RunId>, ghost credit: Option<OperationId>)
      requires Valid() && newId !in store.disk.runs && newId !in store.Births()
      requires if obs.eventRef.Some? then obs.eventRef.value !in events else obs.ingress !in events
      requires obs.CanStartRun() && !TurnKnown(obs, binding, turns) ==> SequenceAllocated(store.disk.runs, currentByBinding, binding, runSeq)
      modifies this, store
      ensures Valid()
      ensures Step(ResultRun(r), store.disk) ==
              FreshOutcome(store.codec, old(store.disk), old(turns), EntryOf(old(currentByBinding), binding), old(currentByPane).Values, binding, runSeq, obs, newId,
                           resolutionId)
      ensures store.LinkSound() <==> old(store.LinkSound()) && KeepsClaims(old(store.disk.runs), old(store.disk.operations), gone, credit)
      ensures GoneAndCredited(old(store.disk.runs), store.disk.runs, newId, gone, credit)
      ensures old(Trusted()) ==> Trusted() || (r == Err(Capacity) && store.LinkSound())
      ensures r.Ok? ==> r.value.run.Some? && Handled(r.value, obs)
      ensures r.Ok? ==> AttributedRun(obs, binding, old(events), old(turns), old(currentByBinding), newId) == Some(r.value.run.value.runId)
      ensures r.Ok? && r.value.run.value.runId == newId ==>
                BornFrom(store.codec, old(store.disk.meta.generation), old(store.disk.operations), binding, runSeq, obs, resolutionId, r.value.run.value)
      ensures r.Ok? && r.value.run.value.runId == newId && r.value.run.value.operationId.Some? ==> r.value.dispatched
      ensures r.Ok? && r.value.run.value.runId != newId ==>
                && r.value.run.value.runId in old(store.disk.runs)
                && AppliedTo(store.codec, old(store.disk.runs)[r.value.run.value.runId], obs, resolutionId, r.value.run.value)
    {
      hide AgentStateStore.Valid, BaseHistory, LinkHistory, Replay, EventsExact, TurnsExact, CurrentExact, PanesExact, OperationsIndexed,
           SettledLinks, SettledExcept, Explains, ReferenceFree, ReferenceNew, TurnNew, NewRun, Claims, AccountsFor, Handled, AgentStateStore.Births, AppliedTo,
           StartOutcome, StoredOutcome, FinishOutcome, KeepsClaims, GoneAndCredited;
      gone, credit := {}, None;
      ghost var before := store.disk.runs;
      NoneGone(before, before, newId);
      NothingClaimed(store.disk.runs, store.disk.operations);
      UnknownReference(store.disk.runs, events, obs);
      TurnsDecide(store.disk.runs, turns, currentByBinding, binding, obs);
      if obs.CanStartRun() {
        if TurnKnown(obs, binding, turns) {
          r := ObserveStored(turns[TurnKey(binding.agentKind, binding.session, obs.turnKey.value)], obs, resolutionId, true, true);
          NoneGone(before, store.disk.runs, newId);
          return;
        }
        var started;
        started, gone := StartRun(binding, runSeq, obs, newId, resolutionId);
        if started.Err? {
          return Err(started.error), gone, credit;
        }
        credit := started.value.operationId;
        ghost var middle := store.disk.runs;
        r := Finish(started.value, obs, Applied);
        CreditedThenSame(before, middle, store.disk.runs, newId, gone, credit);
        return;
      }
      var key := TurnKey(obs.provider, obs.session, if obs.turnKey.Some? then obs.turnKey.value else []);
      var id;
      if obs.turnKey.Some? {
        if key !in turns {
          return Err(NotFound), gone, credit;
        }
        id := turns[key];
      } else {
        if binding !in currentByBinding {
          return Err(NotFound), gone, credit;
        }
        id := currentByBinding[binding];
      }
      r := ObserveStored(id, obs, resolutionId, true, false);
      NoneGone(before, store.disk.runs, newId);
    }

    /** A hook whose reference is not known yet, seen while its pane may still show another binding. */
    method ObserveUnknown(binding: AgentBinding, runSeq: nat, obs: Observation, newId: RunId, resolutionId: ResolutionId)
      returns (r: Result<ApplyResult>, ghost gone: set<RunId>, ghost credit: Option<OperationId>)
      requires Valid() && newId !in store.disk.runs && newId !in store.Births()
      requires if obs.eventRef.Some? then obs.eventRef.value !in events else obs.ingress !in events
      requires obs.CanStartRun() && !TurnKnown(obs, binding, turns) ==> SequenceAllocated(store.disk.runs, currentByBinding, binding, runSeq)
      modifies this, store
      ensures Valid()
      ensures Step(ResultRun(r), store.disk) ==
              ObserveOutcome(store.codec, old(store.disk), old(events), old(turns), old(currentByBinding), old(currentByPane), binding, runSeq, obs, newId,
                             resolutionId)
      ensures store.LinkSound() <==> old(store.LinkSound()) && KeepsClaims(old(store.disk.runs), old(store.disk.operations), gone, credit)
      ensures GoneAndCredited(old(store.disk.runs), store.disk.runs, newId, gone, credit)
      ensures old(Trusted()) ==> Trusted() || (r == Err(Capacity) && store.LinkSound())
      ensures r.Ok? ==> r.value.run.Some? && Handled(r.value, obs)
      ensures r.Ok? ==> AttributedRun(obs, binding, old(events), old(turns), old(currentByBinding), newId) == Some(r.value.run.value.runId)
      ensures r.Ok? && r.value.run.value.runId == newId ==>
                BornFrom(store.codec, old(store.disk.meta.generation), old(store.disk.operations), binding, runSeq, obs, resolutionId, r.value.run.value)
      ensures r.Ok? && r.value.run.value.runId == newId && r.value.run.value.operationId.Some? ==> r.value.dispatched
      ensures r.Ok? && r.value.run.value.runId != newId ==> Follows(store.codec, old(store.disk.runs), obs, resolutionId, r.value.run.value)
    {
      hide AgentStateStore.Valid, BaseHistory, LinkHistory, Replay, EventsExact, TurnsExact, CurrentExact, PanesExact, OperationsIndexed,
           SettledLinks, ReferenceFree, Handled, AgentStateStore.Births, Quieted, SequenceNew, AppliedTo, BornFrom,
           StoredOutcome, RetireOutcome, FreshOutcome, KeepsClaims, GoneAndCredited;
      gone, credit := {}, None;
      ghost var before := store.disk.runs;
      NothingClaimed(store.disk.runs, store.disk.operations);
      var retired := RetireReplacedBindings(binding, obs.observedAt);
      if retired.Err? {
        QuietedAllClaims(before, store.disk.runs, store.disk.operations);
        QuietedKeys(before, store.disk.runs);
        NoneGone(before, store.disk.runs, newId);
        return Err(retired.error), gone, credit;
      }
      QuietedIndexes(before, store.disk.runs, old(events), events, old(turns), turns);
      QuietedKeys(before, store.disk.runs);
      QuietedKeeps(before, store.disk.runs, binding, runSeq, obs);
      QuietedAllClaims(before, store.disk.runs, store.disk.operations);
      ghost var quieted := store.disk.runs;
      r, gone, credit := ObserveFresh(binding, runSeq, obs, newId, resolutionId);
      QuietedThenGone(before, quieted, store.disk.runs, newId, gone, credit);
      if r.Ok? && r.value.run.value.runId != newId {
        FollowsQuieted(store.codec, before, quieted, obs, resolutionId, r.value.run.value);
      }
    }

    /**
     * `apply_provider_observation`. The identifiers are fresh random draws; an observation without a
     * reference of its own carries a fresh ingress identifier; and a sequence number for a new run was
     * allocated after every earlier one of its binding.
     */
    method ApplyProviderObservation(binding: AgentBinding, runSeq: nat, obs: Observation, newId: RunId, resolutionId: ResolutionId)
      returns (r: Result<ApplyResult>, ghost gone: set<RunId>, ghost credit: Option<OperationId>)
      requires Valid() && newId !in store.disk.runs && newId !in store.Births()
      requires obs.eventRef.None? ==> obs.ingress !in events
      requires obs.CanStartRun() && !TurnKnown(obs, binding, turns) ==> SequenceAllocated(store.disk.runs, currentByBinding, binding, runSeq)
      modifies this, store
      ensures Valid()
      // the exact answer, and the exact directory
      ensures obs.hook == SessionStart ==> r == Ok(ApplyResult(None, None, Applied, false)) && store.disk == old(store.disk)
      ensures obs.hook != SessionStart ==>
                Step(ResultRun(r), store.disk) ==
                ObserveOutcome(store.codec, old(store.disk), old(events), old(turns), old(currentByBinding), old(currentByPane), binding, runSeq, obs,
                               newId, resolutionId)
      // what it takes to keep the links: no unsettled claimant removed, no claimed operation credited again
      ensures store.LinkSound() <==> old(store.LinkSound()) && KeepsClaims(old(store.disk.runs), old(store.disk.operations), gone, credit)
      ensures GoneAndCredited(old(store.disk.runs), store.disk.runs, newId, gone, credit)
      ensures old(Trusted()) ==> Trusted() || (r == Err(Capacity) && store.LinkSound())
      ensures obs.hook != SessionStart && r.Ok? ==>
                && r.value.run.Some? && Handled(r.value, obs)
                && AttributedRun(obs, binding, old(events), old(turns), old(currentByBinding), newId) == Some(r.value.run.value.runId)
                && (if r.value.run.value.runId == newId then
                      BornFrom(store.codec, old(store.disk.meta.generation), old(store.disk.operations), binding, runSeq, obs, resolutionId,
                              r.value.run.value)
                    else Follows(store.codec, old(store.disk.runs), obs, resolutionId, r.value.run.value))
      ensures obs.hook != SessionStart && r.Ok? ==>
                BelongsTo(old(store.disk.runs), old(currentByBinding), binding, obs, newId, r.value.run.value.runId)
      // the prompt of a run credited to an operation is dispatched input, and so is any that confirms one (`Handled`)
      ensures r.Ok? && obs.hook != SessionStart && r.value.run.value.runId == newId && r.value.run.value.operationId.Some? ==> r.value.dispatched
    {
      hide AgentStateStore.Valid, AgentStateStore.LinkSound, RunsIndexed, OperationsIndexed, SettledLinks, Handled, AgentStateStore.Births, AppliedTo, BornFrom,
           StoredOutcome, RetireOutcome, FreshOutcome, KeepsClaims, GoneAndCredited, BelongsTo, SequenceAllocated;
      gone, credit := {}, None;
      ghost var before := store.disk.runs;
      NothingClaimed(store.disk.runs, store.disk.operations);
      if obs.hook == SessionStart {
        NoneGone(before, before, newId);
        return Ok(ApplyResult(None, None, Applied, false)), gone, credit;
      }
      HookBelongs(binding, obs, newId);
      if obs.eventRef.Some? && obs.eventRef.value in events {
        ReferenceIsKnown(obs);
        r := ObserveStored(events[obs.eventRef.value], obs, resolutionId, false, false);
        NoneGone(before, store.disk.runs, newId);
        return;
      }
      r, gone, credit := ObserveUnknown(binding, runSeq, obs, newId, resolutionId);
    }

    lemma HookBelongs(binding: AgentBinding, obs: Observation, newId: RunId)
      requires Valid()
      ensures AttributedRun(obs, binding, events, turns, currentByBinding, newId).Some? ==>
                BelongsTo(store.disk.runs, currentByBinding, binding, obs, newId, AttributedRun(obs, binding, events, turns, currentByBinding, newId).value)
    {
      hide AgentStateStore.Valid, EventsExact, TurnsExact, CurrentExact, PanesExact, OperationsIndexed, BelongsTo, AttributedRun;
      AttributedBelongs(store.disk.runs, events, turns, currentByBinding, binding, obs, newId);
    }

    lemma ReferenceIsKnown(obs: Observation)
      requires Valid() && obs.eventRef.Some? && obs.eventRef.value in events
      ensures var id := events[obs.eventRef.value];
        && id in store.disk.runs && ReferenceFree(store.disk.runs, id, obs)
        && (obs.CorrectnessRef().None? || store.disk.runs[id].HasEvent(obs.CorrectnessRef().value))
    {
      hide AgentStateStore.Valid, EventsExact, TurnsExact, CurrentExact, PanesExact, OperationsIndexed, ReferenceFree, RunRecord.HasEvent;
      KnownReference(store.disk.runs, events, obs);
    }

    // ---------------------------------------------------------------- terminal failures and operator decisions

    /** The binding's current run, provided the pane still shows it. */
    method CurrentRunForBinding(binding: AgentBinding) returns (run: Option<RunRecord>)
      requires Valid()
      ensures run.Some? <==>
                binding in currentByBinding && binding.pane in currentByPane && currentByPane[binding.pane] == currentByBinding[binding]
      ensures run.Some? ==> RunStored(store.disk, run.value) && run.value.binding == binding && currentByBinding[binding] == run.value.runId
    {
      hide AgentStateStore.Valid, BaseHistory, EventsExact, TurnsExact, PanesExact, OperationsIndexed,
           EventsUnique, TurnsUnique, SequencesUnique, ActiveNewest, DistinctEvents;
      store.RunsAreDistinct();
      if binding !in currentByBinding || binding.pane !in currentByPane || currentByPane[binding.pane] != currentByBinding[binding] {
        return None;
      }
      run := Some(store.disk.runs[currentByBinding[binding]]);
    }

    /** What `capacity_failure` would write, or why it does not apply. */
    method FailingRun(id: RunId, at: int) returns (r: Result<RunRecord>)
      requires Valid()
      ensures r == if id !in store.disk.runs then Err(RunNotFound)
                   else if !MayFail(store.disk, currentByBinding, currentByPane, id) then Err(Invalid)
                   else match Failed(store.codec, store.disk.runs[id], at) case None => Err(Invalid) case Some(next) => Ok(next)
      ensures r.Ok? ==>
                && id in store.disk.runs && store.disk.runs[id].turnKey.Some? && StillOpen(store.disk.runs[id])
                && FailedAs(store.codec, store.disk.runs[id], r.value, at)
    {
      hide AgentStateStore.Valid, BaseHistory, RunsIndexed, OperationsIndexed, Failed, FailedAs;
      if id !in store.disk.runs {
        return Err(RunNotFound);
      }
      var run := store.disk.runs[id];
      var current := CurrentRunForBinding(run.binding);
      if current.None? || current.value.runId != id || run.outcome != Unresolved || run.phase == Ended || run.turnKey.None? {
        return Err(Invalid);
      }
      var failed := Failed(store.codec, run, at);
      if failed.Some? {
        FailedIsAs(store.codec, run, at);
      }
      r := if failed.Some? then Ok(failed.value) else Err(Invalid);
    }

    /**
     * `capacity_failure`: save the failed run, then index it. When another run holds the reference already,
     * the save succeeds all the same and only the indexing answers corrupt, with the record on disk.
     */
    method CapacityFailure(id: RunId, at: int) returns (r: Result<RunRecord>)
      requires Valid()
      modifies this`events, this`turns, this`currentByBinding, this`currentByPane, store
      ensures var saved := FailOutcome(store.codec, old(store.disk), old(currentByBinding), old(currentByPane), id, at);
              && store.disk == saved.disk
              && r == if saved.result.Err? then saved.result
                      else var indexed := IndexVerdict(saved.disk.runs, old(events), old(turns), old(currentByBinding), saved.result.value);
                           if indexed.Ok? then saved.result else Err(indexed.error)
      ensures r.Ok? ==> id in old(store.disk.runs) && old(store.disk.runs)[id].turnKey.Some? && FailedAs(store.codec, old(store.disk.runs)[id], r.value, at)
                        && StillOpen(old(store.disk.runs)[id]) && store.disk.runs == old(store.disk.runs)[id := r.value]
      // sound as long as nothing was written, or no other run holds the reference
      ensures store.disk == old(store.disk) ==> Valid()
      ensures id in old(store.disk.runs) && old(CapacityRefFree(store.codec, store.disk.runs, id)) ==> Valid() && (old(Trusted()) ==> Trusted())
      ensures store.disk != old(store.disk) && id in old(store.disk.runs) && !old(CapacityRefFree(store.codec, store.disk.runs, id)) ==>
                r == Err(Corrupt) && !EventsUnique(store.disk.runs)
      // either way the directory passes every check of a later open that does not look across runs
      ensures store.Valid() && Opens(store.codec, store.disk)
    {
      hide AgentStateStore.Valid, AgentStateStore.BaseSound, AgentStateStore.LinkSound, EventsExact, TurnsExact, CurrentExact, PanesExact, FenceExact, InputsExact,
           SettledLinks, RunVerdict, Failed, CapacityRef, CapacityRefFree, EventsUnique, EventsAfter, TurnsAfter, CurrentAfter, PanesAfter, IndexVerdict,
           Opens, RunRecord.Active, FailedAs, StillOpen, KnownElsewhere, TakesOver, ShowsUp;
      store.SoundIsOpenable();
      var next := FailingRun(id, at);
      if next.Err? {
        return Err(next.error);
      }
      store.RunsAreDistinct();
      var saved := SaveFailed(id, at, next.value);
      if saved.Err? {
        return Err(saved.error);
      }
      var indexed := IndexRun(next.value);
      r := if indexed.Ok? then Ok(next.value) else Err(indexed.error);
    }

    /** The save alone; what indexing will make of it is known already. */
    method SaveFailed(id: RunId, at: int, next: RunRecord) returns (saved: Result<()>)
      requires Valid() && MayFail(store.disk, currentByBinding, currentByPane, id) && Failed(store.codec, store.disk.runs[id], at) == Some(next)
      modifies store
      ensures saved == RunVerdict(store.codec, old(store.disk), next) && next.runId == id
      ensures store.disk == if saved.Ok? then old(store.disk).(runs := old(store.disk.runs)[id := next]) else old(store.disk)
      ensures store.Valid() && Opens(store.codec, store.disk)
      ensures store.disk == old(store.disk) ==> Valid() && (old(Trusted()) ==> Trusted())
      ensures saved.Ok? && old(CapacityRefFree(store.codec, store.disk.runs, id)) ==>
                && store.BaseSound() && OperationsIndexed() && (old(Trusted()) ==> Trusted())
                && IndexVerdict(store.disk.runs, events, turns, currentByBinding, next) == Ok(())
                && EventsExact(store.disk.runs, EventsAfter(events, next)) && TurnsExact(store.disk.runs, TurnsAfter(turns, next))
                && CurrentExact(store.disk.runs, CurrentAfter(store.disk.runs, currentByBinding, next))
                && PanesExact(store.disk.runs, PanesAfter(store.disk.runs, currentByBinding, currentByPane, next))
      ensures saved.Ok? && !old(CapacityRefFree(store.codec, store.disk.runs, id)) ==>
                && store.disk != old(store.disk) && !EventsUnique(store.disk.runs)
                && IndexVerdict(store.disk.runs, events, turns, currentByBinding, next) == Err(Corrupt)
    {
      hide AgentStateStore.Valid, BaseHistory, LinkHistory, Replay, EventsExact, TurnsExact, CurrentExact, PanesExact, FenceExact, InputsExact,
           SettledLinks, RunVerdict, Admissible, RunReplacement, Failed, CapacityRef, CapacityRefFree, EventsUnique, RunRecord.HasEvent,
           InScope, EventsAfter, TurnsAfter, CurrentAfter, PanesAfter, AgentStateStore.Births, IndexVerdict, Opens, RunRecord.Active,
           SoundRun, MayReplaceRun, ValidRun;
      store.SoundIsOpenable();
      ghost var runs := store.disk.runs;
      store.RunsAreDistinct();
      store.TiedWhenValid();
      ghost var free := CapacityRefFree(store.codec, runs, id);
      FailurePrepared(next, id, at);
      saved := store.SaveRun(next, NO_CAUSE);
      assert saved.Ok? ==> store.disk == old(store.disk).(runs := runs[id := next]);
      if saved.Ok? && free {
        IndexingHolds(next, runs);
      }
    }

    /** What the save of a failed run will mean, told before it happens. */
    lemma FailurePrepared(next: RunRecord, id: RunId, at: int)
      requires Valid() && MayFail(store.disk, currentByBinding, currentByPane, id) && Failed(store.codec, store.disk.runs[id], at) == Some(next)
      ensures next.runId == id
      ensures Opens(store.codec, store.disk) && RunVerdict(store.codec, store.disk, next).Ok? ==>
                Opens(store.codec, store.disk.(runs := store.disk.runs[id := next]))
      ensures CapacityRefFree(store.codec, store.disk.runs, id) && RunVerdict(store.codec, store.disk, next).Ok? ==>
                && InScope(store.disk.runs[id := next], store.disk.runs, next)
                && (SettledLinks(store.disk.runs, store.disk.operations) <==> SettledLinks(store.disk.runs[id := next], store.disk.operations))
                && (next != store.disk.runs[id] ==>
                      && BaseHistory(store.codec, After(store.journal, ReplaceRun(next)))
                      && (LinkHistory(After(store.journal, ReplaceRun(next))) <==> LinkHistory(store.journal)))
      ensures !CapacityRefFree(store.codec, store.disk.runs, id) ==>
                && next != store.disk.runs[id] && !EventsUnique(store.disk.runs[id := next])
                && IndexVerdict(store.disk.runs[id := next], events, turns, currentByBinding, next) == Err(Corrupt)
    {
      hide AgentStateStore.Valid, BaseHistory, LinkHistory, Replay, EventsExact, TurnsExact, CurrentExact, PanesExact, OperationsIndexed,
           SettledLinks, RunVerdict, Admissible, RunReplacement, Failed, CapacityRef, CapacityRefFree, EventsUnique, RunRecord.HasEvent,
           InScope, IndexVerdict, Opens, TurnsUnique, SequencesUnique, ActiveNewest, DistinctEvents;
      store.RunsAreDistinct();
      store.TiedWhenValid();
      FailedKeepsIdentity(store.codec, store.disk.runs[id], at);
      FailureStaysOpenable(store.codec, store.disk, id, at);
      if CapacityRefFree(store.codec, store.disk.runs, id) {
        if next != store.disk.runs[id] {
          FailureIsAdmissible(store.codec, store.journal, store.disk, id, at);
          ReplaceExtends(store.codec, store.journal, store.disk, next);
        }
        ScopeAfterSave(store.disk.runs, next);
        SettledAfterReplace(store.disk.runs, store.disk.operations, next);
      } else {
        DuplicateReference(store.codec, store.disk.runs, id, at);
        DuplicateClashes(store.codec, store.disk.runs, events, turns, currentByBinding, id, at);
      }
    }

    /** On a lawful directory indexing a stored run succeeds and leaves every run index exact. */
    lemma IndexingHolds(run: RunRecord, scope: Runs)
      requires store.Valid() && store.BaseSound() && InScope(store.disk.runs, scope, run) && Indexes(scope)
      ensures var runs, scope' := store.disk.runs, scope[run.runId := run];
        && IndexVerdict(runs, events, turns, currentByBinding, run) == Ok(())
        && EventsExact(scope', EventsAfter(events, run)) && TurnsExact(scope', TurnsAfter(turns, run))
        && CurrentExact(scope', CurrentAfter(runs, currentByBinding, run))
        && PanesExact(scope', PanesAfter(runs, currentByBinding, currentByPane, run))
    {
      hide AgentStateStore.Valid, EventsUnique, TurnsUnique, SequencesUnique, ActiveNewest, EventsExact, TurnsExact, CurrentExact, PanesExact,
           CurrentAfter, PanesAfter, EventsKept, EventsAfter, TurnsAfter, Clash, CountNew, DistinctEvents, InScope, AgentStateStore.BaseSound;
      store.RunsAreDistinct();
      ScopeIsStored(store.disk.runs, scope, run);
      IndexingIsSound(store.disk.runs, scope, events, turns, currentByBinding, currentByPane, run);
    }

    /** Compare-and-set: the decision is recorded only on the very value of the run the operator saw, and only once. */
    method ResolveOperatorCompleted(reference: RunRef, p: Precondition, w: OperatorDecision, pane: PaneFence, process: Option<ProcessIdentity>,
                                    viewport: Option<Viewport>) returns (r: Result<RunRecord>)
      requires Valid()
      modifies this`events, this`turns, this`currentByBinding, this`currentByPane, store
      ensures Valid()
      ensures old(Trusted()) ==> Trusted()
      ensures r.Err? ==> store.disk == old(store.disk)
      ensures store.LinkSound() <==> old(store.LinkSound())
      ensures if reference.server != serverIdentity || reference.generation != old(store.disk.meta.generation)
              then r == Err(RunGenerationReplaced) && store.disk == old(store.disk)
              else Step(r, store.disk) ==
                   ResolveOutcome(store.codec, old(store.disk), serverIdentity, reference.runId, p, w, pane, process, viewport)
      ensures r.Ok? ==> reference.runId in old(store.disk.runs)
      // a run that already has a resolution: the same decision is confirmed without a write, any other is refused
      ensures r.Ok? && old(store.disk.runs)[reference.runId].resolution.Some? ==>
                && SameDecision(old(store.disk.runs)[reference.runId].resolution.value, w.id, w.reason)
                && old(store.disk.runs)[reference.runId].resolution.value.resolutionId == w.id
                && old(store.disk.runs)[reference.runId].resolution.value.kind == ResolutionKind.OperatorCompleted
                && old(store.disk.runs)[reference.runId].resolution.value.audit.value.reasonDigest == Sha256(w.reason)
                && r.value == old(store.disk.runs)[reference.runId] && store.disk == old(store.disk)
      ensures (reference == RunRef(serverIdentity, old(store.disk.meta.generation), reference.runId)
               && reference.runId in old(store.disk.runs) && old(store.disk.runs)[reference.runId].resolution.Some?) ==>
                var known := old(store.disk.runs)[reference.runId].resolution.value;
                r == if known.resolutionId == w.id && known.kind == ResolutionKind.OperatorCompleted
                        && known.audit.Some? && known.audit.value.reasonDigest == Sha256(w.reason) then Ok(old(store.disk.runs)[reference.runId])
                     else if known.resolutionId == w.id then Err(ResolutionConflict) else Err(RunAlreadyResolved)
      ensures r.Ok? && old(store.disk.runs)[reference.runId].resolution.None? ==>
                && ValidPrecondition(p) && ActsOn(p)
                && NothingChanged(p, serverIdentity, old(store.disk.runs)[reference.runId], w.at, pane, process, viewport)
                && CompletedByOperator(old(store.disk.runs)[reference.runId], r.value, w)
                && store.disk.runs == old(store.disk.runs)[reference.runId := r.value] && SameElseRuns(old(store.disk), store.disk)
      ensures (reference == RunRef(serverIdentity, old(store.disk.meta.generation), reference.runId)
              && reference.runId in old(store.disk.runs) && old(store.disk.runs)[reference.runId].resolution.None? && ValidPrecondition(p)) ==>
                (r == Err(StalePrecondition) <==>
                   !StillHolds(p, serverIdentity, old(store.disk.runs)[reference.runId], w.at, pane, process, viewport))
    {
      hide AgentStateStore.Valid, BaseHistory, LinkHistory, Replay, RunsIndexed, OperationsIndexed, SettledLinks, RunVerdict, Admissible,
           RunReplacement, ValidRun, CurrentAfter, PanesAfter, AgentStateStore.Births, ValidPrecondition, StillHolds, NothingChanged,
           ActsOn, CompletedByOperator;
      if reference.server != serverIdentity || reference.generation != store.disk.meta.generation {
        return Err(RunGenerationReplaced);
      }
      var id := reference.runId;
      if id !in store.disk.runs {
        return Err(RunNotFound);
      }
      var run := store.disk.runs[id];
      store.RunIsOk(id);
      OpenWhenUnresolved(store.codec, run);
      var done := LookupDecision(run, w.id, w.reason);
      if done.Err? {
        return Err(done.error);
      }
      if done.value {
        return Ok(run);
      }
      if !ValidPrecondition(p) {
        return Err(Invalid);
      }
      ValidActsOn(p);
      StillHoldsIsUnchanged(p, serverIdentity, run, w.at, pane, process, viewport);
      if !StillHolds(p, serverIdentity, run, w.at, pane, process, viewport) {
        return Err(StalePrecondition);
      }
      var next := OperatorCompletes(run, w);
      if next.None? {
        return Err(Invalid);
      }
      OperatorCompletesIs(run, w);
      if !ValidRun(store.codec, next.value) {
        InvalidIsRefused(store.codec, store.disk, next.value);
        return Err(Invalid);
      }
      store.TiedWhenValid();
      OperatorIsAdmissible(store.codec, store.journal, store.disk, id, w);
      var saved := ReplaceIndexed(next.value);
      r := if saved.Ok? then Ok(next.value) else Err(saved.error);
    }

    // ---------------------------------------------------------------- panes after a restart

    /**
     * Runs whose exact binding is no longer live end, and exactly the live bindings stay current, each shown
     * on its pane. A run that cannot be ended stops the pass.
     */
    method ReconcilePanesAfterRestart(panes: map<PaneInstance, PaneView>, at: int) returns (r: Result<()>)
      requires Valid()
      modifies this`events, this`turns, this`currentByBinding, this`currentByPane, store
      ensures Valid()
      ensures old(Trusted()) ==> Trusted()
      ensures store.LinkSound() <==> old(store.LinkSound())
      ensures store.disk.runs.Keys == old(store.disk.runs).Keys && SameElseRuns(old(store.disk), store.disk)
      ensures forall id :: id in store.disk.runs ==>
                || store.disk.runs[id] == old(store.disk.runs)[id]
                || (!StillThere(panes, store.disk.runs[id].binding) && EndedAs(old(store.disk.runs)[id], store.disk.runs[id], at))
      ensures r.Ok? ==> forall id :: id in store.disk.runs && StillOpen(store.disk.runs[id]) ==> StillThere(panes, store.disk.runs[id].binding)
      ensures r.Err? ==> exists id :: EndRefused(store.codec, store.disk, panes, id, at, r.error)
      ensures r.Err? ==> currentByBinding == old(currentByBinding)
      ensures r.Ok? ==>
                && (forall b :: b in currentByBinding <==> b in old(currentByBinding) && StillThere(panes, b))
                && forall b :: b in currentByBinding ==> currentByBinding[b] == old(currentByBinding)[b]
      ensures r.Ok? ==> ShownExactly(store.disk.runs, currentByBinding, currentByPane)
    {
      hide AgentStateStore.Valid, BaseHistory, LinkHistory, Replay, EventsExact, TurnsExact, CurrentExact, PanesExact, FenceExact, InputsExact,
           SettledLinks, Live, EndedAt, RunRecord.Active, ShownExactly, EndRefused, AgentStateStore.LinkSound, StillThere, StillOpen, EndedAs;
      LiveIsThere(panes);
      r := EndAllGone(panes, at);
      ChangesAreEndings(old(store.disk.runs), store.disk.runs, at);
      if r.Err? {
        return;
      }
      LiveStayCurrent(store.disk.runs, currentByBinding, panes);
      currentByBinding := OnlyLive(panes, currentByBinding);
      ShowCurrent();
    }

    method EndAllGone(panes: map<PaneInstance, PaneView>, at: int) returns (r: Result<()>)
      requires Valid()
      modifies this`events, this`turns, this`currentByBinding, this`currentByPane, store
      ensures Valid()
      ensures old(Trusted()) ==> Trusted()
      ensures store.LinkSound() <==> old(store.LinkSound())
      ensures store.disk.runs.Keys == old(store.disk.runs).Keys && SameElseRuns(old(store.disk), store.disk)
      ensures forall id :: id in store.disk.runs ==>
                || store.disk.runs[id] == old(store.disk.runs)[id]
                || (!Live(panes, store.disk.runs[id].binding) && EndedAt(old(store.disk.runs)[id], at) == Some(store.disk.runs[id]))
      ensures r.Ok? ==> forall id :: id in store.disk.runs && store.disk.runs[id].Active() ==> Live(panes, store.disk.runs[id].binding)
      ensures r.Err? ==> exists id :: EndRefused(store.codec, store.disk, panes, id, at, r.error)
      ensures currentByBinding == old(currentByBinding)
    {
      hide AgentStateStore.Valid, BaseHistory, LinkHistory, Replay, RunsIndexed, OperationsIndexed, SettledLinks, Live, AgentStateStore.Births,
           AgentStateStore.LinkSound, EndOutcome;
      ActiveAreCurrent();
      var left := currentByBinding.Values;
      ghost var before := store.disk.runs;
      while left != {}
        invariant Valid()
        invariant old(Trusted()) ==> Trusted()
        invariant store.LinkSound() <==> old(store.LinkSound())
        invariant store.disk.runs.Keys == before.Keys && SameElseRuns(old(store.disk), store.disk)
        invariant left <= before.Keys && currentByBinding == old(currentByBinding)
        invariant forall id :: id in left ==> store.disk.runs[id] == before[id]
        invariant forall id :: id in before && id !in left && store.disk.runs[id].Active() ==> Live(panes, store.disk.runs[id].binding)
        invariant forall id :: id in before ==>
                    || store.disk.runs[id] == before[id]
                    || (!Live(panes, store.disk.runs[id].binding) && EndedAt(before[id], at) == Some(store.disk.runs[id]))
        decreases left
      {
        var id :| id in left;
        var run := store.disk.runs[id];
        if run.Active() && !Live(panes, run.binding) {
          var ended := EndUnresolvedRun(id, at);
          if ended.Err? {
            assert EndRefused(store.codec, store.disk, panes, id, at, ended.error);
            return Err(ended.error);
          }
        }
        left := left - {id};
      }
      r := Ok(());
    }

    lemma ActiveAreCurrent()
      requires Valid()
      ensures currentByBinding.Values <= store.disk.runs.Keys
      ensures forall id :: id in store.disk.runs && store.disk.runs[id].Active() ==> id in currentByBinding.Values
    {
      hide AgentStateStore.Valid, BaseHistory, EventsExact, TurnsExact, PanesExact, OperationsIndexed;
      forall id | id in store.disk.runs && store.disk.runs[id].Active()
        ensures id in currentByBinding.Values
      {
        assert currentByBinding[store.disk.runs[id].binding] == id;
      }
    }

    /** Every current run is shown on its pane, and no pane shows anything else. */
    method ShowCurrent()
      requires Valid()
      modifies this`currentByPane
      ensures Valid()
      ensures ShownExactly(store.disk.runs, currentByBinding, currentByPane)
    {
      hide AgentStateStore.Valid, AgentStateStore.BaseSound, EventsExact, TurnsExact, CurrentExact, FenceExact, InputsExact, ShownOf;
      currentByPane := map[];
      ActiveAreCurrent();
      var left := currentByBinding.Values;
      NothingShown(store.disk.runs);
      assert currentByBinding.Values - left == {};
      while left != {}
        invariant left <= currentByBinding.Values && ShownOf(store.disk.runs, currentByBinding.Values - left, currentByPane)
        decreases left
      {
        var id :| id in left;
        ShownOneMore(store.disk.runs, currentByBinding.Values - left, currentByPane, id);
        assert currentByBinding.Values - left + {id} == currentByBinding.Values - (left - {id});
        currentByPane := currentByPane[store.disk.runs[id].binding.pane := id];
        left := left - {id};
      }
      assert currentByBinding.Values - left == currentByBinding.Values;
      AllShown(store.disk.runs, currentByBinding, currentByPane);
    }

    // ---------------------------------------------------------------- opening

    /**
     * Index every stored run, in whatever order the directory lists them. A reference or a turn that two
     * runs share makes this fail as corrupt; a directory that lawful writes produced never fails.
     */
    method RebuildRuns() returns (r: Result<()>)
      requires RunsReadable(store.codec, store.disk) && |store.disk.runs| <= RUN_STORE_MAX_RECORDS
      requires events == map[] && turns == map[] && currentByBinding == map[] && currentByPane == map[]
      modifies this`events, this`turns, this`currentByBinding, this`currentByPane
      ensures r.Err? ==> r.error == Corrupt
      ensures r.Ok? ==> EventsExact(store.disk.runs, events) && TurnsExact(store.disk.runs, turns)
      ensures !EventsUnique(store.disk.runs) || !TurnsUnique(store.disk.runs) ==> r == Err(Corrupt)
      ensures EventsUnique(store.disk.runs) && TurnsUnique(store.disk.runs) && SequencesUnique(store.disk.runs) ==> r.Ok?
      ensures store.Valid() && store.BaseSound() ==>
                && r.Ok? && RunsIndexed()
                && CurrentNewest(store.disk.runs, currentByBinding) && PanesNewest(store.disk.runs, currentByPane)
                && ShowsLatest(store.disk.runs, currentByPane)
    {
      hide AgentStateStore.Valid, AgentStateStore.BaseSound, EventsExact, TurnsExact, CurrentExact, PanesExact, CurrentNewest, PanesNewest,
           EventsAfter, TurnsAfter, CurrentAfter, PanesAfter, EventsUnique, TurnsUnique, SequencesUnique, ActiveNewest, DistinctEvents,
           RunsReadable, IndexVerdict, InScope, ShowsLatest;
      var runs := store.disk.runs;
      NothingIndexed();
      var left := runs.Keys;
      ghost var scope: Runs := map[];
      while left != {}
        invariant left <= runs.Keys && store.disk.runs == runs
        invariant PartScanned(runs, scope, left) && CurrentNamesRuns(runs, currentByBinding)
        invariant EventsExact(scope, events) && TurnsExact(scope, turns)
        invariant store.Valid() && store.BaseSound() ==>
                    Indexes(scope) && CurrentNewest(scope, currentByBinding) && PanesNewest(scope, currentByPane)
        decreases left
      {
        var id :| id in left;
        OneScanned(store.codec, store.disk, scope, left, id);
        ScanVerdict(runs, scope, events, turns, currentByBinding, runs[id]);
        if store.Valid() && store.BaseSound() {
          IndexingStep(runs[id], scope, left);
        }
        CurrentStillNames(runs, currentByBinding, runs[id]);
        label S:
        var indexed := IndexRun(runs[id]);
        if indexed.Err? {
          ClashMeansShared(runs, scope, old@S(events), old@S(turns), old@S(currentByBinding), runs[id]);
          return Err(indexed.error);
        }
        scope := scope[id := runs[id]];
        left := left - {id};
      }
      assert scope == runs;
      ExactMeansUnique(runs, events, turns);
      NewestShowsLatest(runs, currentByPane);
      r := Ok(());
    }

    lemma IndexingStep(run: RunRecord, scope: Runs, left: set<RunId>)
      requires store.Valid() && store.BaseSound()
      requires PartScanned(store.disk.runs, scope, left) && run.runId in left && left <= store.disk.runs.Keys && store.disk.runs[run.runId] == run
      requires Indexes(scope) && CurrentNewest(scope, currentByBinding) && PanesNewest(scope, currentByPane)
      ensures IndexVerdict(store.disk.runs, events, turns, currentByBinding, run) == Ok(())
      ensures CurrentExact(scope[run.runId := run], CurrentAfter(store.disk.runs, currentByBinding, run))
      ensures PanesExact(scope[run.runId := run], PanesAfter(store.disk.runs, currentByBinding, currentByPane, run))
      ensures CurrentNewest(scope[run.runId := run], CurrentAfter(store.disk.runs, currentByBinding, run))
      ensures PanesNewest(scope[run.runId := run], PanesAfter(store.disk.runs, currentByBinding, currentByPane, run))
    {
      hide AgentStateStore.Valid, AgentStateStore.BaseSound, EventsExact, TurnsExact, CurrentExact, PanesExact, CurrentNewest, PanesNewest,
           EventsAfter, EventsKept, TurnsAfter, CurrentAfter, PanesAfter, EventsUnique, TurnsUnique, SequencesUnique, ActiveNewest, DistinctEvents,
           Clash, CountNew;
      store.RunsAreDistinct();
      assert InScope(store.disk.runs, scope, run);
      IndexingIsSound(store.disk.runs, scope, events, turns, currentByBinding, currentByPane, run);
      CurrentNewestAfter(store.disk.runs, scope, currentByBinding, run);
      PanesNewestAfter(store.disk.runs, scope, currentByBinding, currentByPane, run);
    }

    method RebuildOperations()
      requires store.Valid() && store.BaseSound() && fences == map[] && inputs == map[]
      modifies this`fences, this`inputs
      ensures OperationsIndexed()
    {
      hide AgentStateStore.Valid, AgentStateStore.BaseSound, FenceExact, InputsExact, IndexInput, FenceUnique;
      var operations := store.disk.operations;
      store.OperationsAreDistinct();
      NothingFenced();
      var left := operations.Keys;
      ghost var scope: Operations := map[];
      while left != {}
        invariant left <= operations.Keys && store.disk.operations == operations
        invariant scope.Keys == operations.Keys - left && forall id :: id in scope ==> scope[id] == operations[id]
        invariant FenceExact(scope, fences) && InputsExact(scope, inputs)
        decreases left
      {
        var id :| id in left;
        var o := operations[id];
        FencePart(operations, scope[id := o]);
        ScanOperation(scope, fences, inputs, o);
        if o.Fenced() {
          fences := fences[TargetOf(o.binding) := id];
        }
        if InputOf(o).Some? {
          inputs := IndexInput(inputs, o);
        }
        scope := scope[id := o];
        left := left - {id};
      }
      assert scope == operations;
    }

    /** Confirm the claim of one run found at the start; `n` counts the room that is left. */
    method ConfirmOne(id: RunId, ghost start: Disk, ghost n: nat) returns (r: Result<()>)
      requires Valid() && StagedExactly(store.disk.operations, store.disk.prompts)
      requires Keyed(start) && start.runs == store.disk.runs && id in store.disk.runs && Confirming(start, store.disk.operations)
      modifies this`fences, this`inputs, store
      ensures Valid() && StagedExactly(store.disk.operations, store.disk.prompts)
      ensures store.LinkSound() <==> old(store.LinkSound())
      ensures SameButDispatch(old(store.disk), store.disk)
      ensures Confirming(start, store.disk.operations)
      ensures forall other :: LinkSettled(other, old(store.disk.operations)) ==> LinkSettled(other, store.disk.operations)
      ensures r.Ok? ==> LinkSettled(store.disk.runs[id], store.disk.operations)
      ensures ChangedBy(old(store.disk.operations), store.disk.operations, {id})
      ensures r.Err? ==> store.disk == old(store.disk)
                         && ConfirmOutcome(store.codec, store.disk, store.disk.runs[id], store.disk.runs[id].updatedAt).result == Err(r.error)
      ensures Openable(start) && r.Err? ==> r.error == Capacity
      ensures Openable(start) && n >= Need(start, id) && old(RoomFor(store.codec, store.disk.operations, n)) && ConfirmationFits(store.codec, start, id) ==>
                r.Ok? && RoomFor(store.codec, store.disk.operations, n - Need(start, id))
    {
      hide AgentStateStore.Valid, AgentStateStore.BaseSound, AgentStateStore.LinkSound, RunsIndexed, OperationsIndexed, StagedExactly, LinkSettled,
           FenceAfter, Confirming, RoomFor, Openable, OperationVerdict, ConfirmedBy, ValidRun, ValidOperation;
      var run := store.disk.runs[id];
      ghost var operations, prompts := store.disk.operations, store.disk.prompts;
      store.RunIsSound(id);
      store.IsKeyed();
      ClaimPrepared(id, start, n);
      var confirmed := ConfirmLinkedOperation(run, run.updatedAt);
      if confirmed.Err? {
        return Err(confirmed.error);
      }
      if confirmed.value.Some? {
        StagedAfter(operations, prompts, confirmed.value.value);
        assert operations[run.operationId.value := operations[run.operationId.value]] == operations;
        ConfirmingKeys(start, operations);
        ConfirmingKeys(start, store.disk.operations);
        ConfirmedIsChange(operations, store.disk.operations, run);
      }
      r := Ok(());
    }

    /** What confirming the claim of a run will come to, told before it happens. */
    lemma ClaimPrepared(id: RunId, start: Disk, n: nat)
      requires Valid() && Keyed(start) && start.runs == store.disk.runs && id in store.disk.runs && Confirming(start, store.disk.operations)
      requires start.runs[id].updatedAt >= 0
      ensures var outcome := ConfirmOutcome(store.codec, store.disk, store.disk.runs[id], store.disk.runs[id].updatedAt);
        && (outcome.result.Ok? ==> Confirming(start, outcome.disk.operations))
        && (Openable(start) && outcome.result.Err? ==> outcome.result.error == Capacity)
        && (Openable(start) && n >= Need(start, id) && RoomFor(store.codec, store.disk.operations, n) && ConfirmationFits(store.codec, start, id) ==>
              outcome.result.Ok? && RoomFor(store.codec, outcome.disk.operations, n - Need(start, id)))
    {
      hide AgentStateStore.Valid, AgentStateStore.BaseSound, RunsIndexed, OperationsIndexed, Confirming, RoomFor, Openable, OperationVerdict,
           ConfirmedBy, ValidRun, ValidOperation, OperationReplacement, OperationsStored, OperationOk;
      var run := store.disk.runs[id];
      if run.operationId.Some? {
        ClaimOutcome(store.codec, store.disk, start, id, n);
        if run.operationId.value in store.disk.operations {
          store.OperationIsOk(run.operationId.value);
          store.RunIsOk(id);
          store.OperationsAreStored();
          ConfirmingClaim(store.codec, store.disk, start, id, n);
        }
      }
    }

    /** Confirm every claim a crash left open, in order of run identifiers. It stops at the first claim that cannot be confirmed. */
    method ConfirmAll(ghost clock: Clock) returns (r: Result<()>)
      requires Valid() && StagedExactly(store.disk.operations, store.disk.prompts)
      modifies this`fences, this`inputs, store
      ensures Valid() && StagedExactly(store.disk.operations, store.disk.prompts)
      ensures store.LinkSound() <==> old(store.LinkSound())
      ensures SameButDispatch(old(store.disk), store.disk)
      ensures Keyed(old(store.disk)) && Confirming(old(store.disk), store.disk.operations)
      ensures r.Ok? ==> SettledLinks(store.disk.runs, store.disk.operations) && Openable(old(store.disk))
      ensures r.Err? ==> exists id :: FirstStuck(store.codec, store.disk, id, r.error) && ConfirmedUpTo(old(store.disk), store.disk.operations, id)
      ensures Openable(old(store.disk)) && r.Err? ==> r.error == Capacity
      ensures old(RestartRoom(store.codec, store.disk, clock)) && Openable(old(store.disk)) ==>
                r.Ok? && RoomFor(store.codec, store.disk.operations, |Interrupted(old(store.disk.operations), clock)|)
    {
      hide AgentStateStore.Valid, AgentStateStore.BaseSound, AgentStateStore.LinkSound, RunsIndexed, OperationsIndexed, StagedExactly, LinkSettled,
           FenceAfter, Confirming, RoomFor, Openable, ConfirmOutcome, Need, Needed, ConfirmationFits, OpenClaims, Interrupted, RestartFits,
           ChangedBy, ConfirmedUpTo, Keyed, RunRecord.HasBody, ValidRun, ValidOperation;
      store.IsKeyed();
      var runs := store.disk.runs;
      ghost var start := store.disk;
      ghost var room := RestartRoom(store.codec, start, clock) && Openable(start);
      NothingConfirmed(start);
      NeededAtStart(start, clock);
      var left := runs.Keys;
      assert runs.Keys - left == {};
      while left != {}
        invariant Valid() && StagedExactly(store.disk.operations, store.disk.prompts)
        invariant store.LinkSound() <==> old(store.LinkSound())
        invariant SameButDispatch(start, store.disk) && Confirming(start, store.disk.operations)
        invariant left <= runs.Keys
        invariant forall id :: id in runs && id !in left ==> LinkSettled(runs[id], store.disk.operations) && forall k :: k in left ==> id < k
        invariant ChangedBy(start.operations, store.disk.operations, runs.Keys - left)
        invariant room ==> RoomFor(store.codec, store.disk.operations, Needed(start, left, clock))
        decreases left
      {
        ghost var least := LeastExists(left);
        var id :| id in left && forall k :: k in left ==> id <= k;
        NeededStep(start, left, id, clock);
        ghost var operations := store.disk.operations;
        var one := ConfirmOne(id, start, Needed(start, left, clock));
        if one.Err? {
          ChangedByEarlier(start, operations, runs.Keys - left, id);
          assert FirstStuck(store.codec, store.disk, id, one.error);
          return Err(one.error);
        }
        ChangedByOneMore(start.operations, operations, store.disk.operations, runs.Keys - left, id);
        assert runs.Keys - left + {id} == runs.Keys - (left - {id});
        left := left - {id};
      }
      AllSettled(runs, store.disk.operations);
      SettledWasOpenable(start, store.disk.operations);
      r := Ok(());
    }

    /** Settle one interrupted dispatch; `n` counts the room that is left. */
    method SettleOneInterrupted(id: OperationId, clock: Clock, ghost n: nat) returns (r: Result<()>)
      requires Valid() && StagedExactly(store.disk.operations, store.disk.prompts)
      requires SettledLinks(store.disk.runs, store.disk.operations) && id in store.disk.operations && !AtRest(store.disk.operations[id], clock) && Ticking(clock)
      modifies this`fences, this`inputs, store
      ensures Valid() && StagedExactly(store.disk.operations, store.disk.prompts)
      ensures SettledLinks(store.disk.runs, store.disk.operations)
      ensures store.LinkSound() <==> old(store.LinkSound())
      ensures SameButDispatch(old(store.disk), store.disk)
      ensures r.Ok? ==>
                && RestartSettled(old(store.disk.operations)[id], clock).Some?
                && store.disk.operations == old(store.disk.operations)[id := RestartSettled(old(store.disk.operations)[id], clock).value]
                && AtRest(store.disk.operations[id], clock)
      ensures r.Err? ==> store.disk == old(store.disk) && r.error == Capacity && RestartRefused(store.codec, store.disk, id, clock)
      ensures n > 0 && old(RoomFor(store.codec, store.disk.operations, n)) && RestartFits(store.codec, old(store.disk.operations)[id], clock) ==>
                r.Ok? && RoomFor(store.codec, store.disk.operations, n - 1)
    {
      hide AgentStateStore.Valid, AgentStateStore.BaseSound, AgentStateStore.LinkSound, RunsIndexed, OperationsIndexed, SettledLinks, StagedExactly,
           FenceAfter, SettledTo, SoundCode, MaySettle, RoomFor, OperationVerdict, ValidOperation;
      var o := store.disk.operations[id];
      ghost var operations, prompts := store.disk.operations, store.disk.prompts;
      store.OperationIsOk(id);
      store.OperationsAreStored();
      RestartIsSound(o, clock);
      SettlingKeepsSettled(store.disk.runs, operations, id);
      if n > 0 && RoomFor(store.codec, operations, n) && RestartFits(store.codec, o, clock) {
        RoomIsEnough(store.codec, store.disk, RestartSettled(o, clock).value, n);
      }
      var settled;
      if o.state == Prepared {
        settled := SettleDispatch(id, Rejected, PREPARED_TIMEOUT_AFTER_RESTART, clock(o.operationId));
      } else {
        settled := SettleDispatch(id, DeliveryUnknown, RESTARTED_DURING_DISPATCH, clock(o.operationId));
      }
      if settled.Err? {
        return Err(settled.error);
      }
      StagedAfter(operations, prompts, settled.value);
      r := Ok(());
    }

    /** The fence index names every interrupted dispatch. */
    method FenceInterrupted(clock: Clock) returns (found: set<OperationId>)
      requires Valid()
      ensures found == Interrupted(store.disk.operations, clock)
    {
      hide AgentStateStore.Valid, AgentStateStore.BaseSound, RunsIndexed, FenceExact, InputsExact, AtRest, Interrupted;
      found := set k | k in fences && fences[k] in store.disk.operations && !AtRest(store.disk.operations[fences[k]], clock) :: fences[k];
      InterruptedAreFenced(store.disk.operations, fences, found, clock);
    }

    /** Settle every dispatch the crash interrupted: expired ones were never sent, started ones may have been. */
    method SettleInterrupted(clock: Clock, ghost n: nat) returns (r: Result<()>)
      requires Valid() && StagedExactly(store.disk.operations, store.disk.prompts)
      requires SettledLinks(store.disk.runs, store.disk.operations) && Ticking(clock)
      modifies this`fences, this`inputs, store
      ensures Valid() && StagedExactly(store.disk.operations, store.disk.prompts)
      ensures SettledLinks(store.disk.runs, store.disk.operations)
      ensures store.LinkSound() <==> old(store.LinkSound())
      ensures SameButDispatch(old(store.disk), store.disk) && store.disk.operations.Keys == old(store.disk.operations).Keys
      ensures exists left: set<OperationId> :: Settling(old(store.disk.operations), store.disk.operations, left, clock)
      ensures r.Ok? ==> Settling(old(store.disk.operations), store.disk.operations, {}, clock)
      ensures r.Ok? ==> forall id :: id in old(store.disk.operations) ==>
                RestartedAlone(old(store.disk.operations)[id], store.disk.operations[id], clock(id))
      ensures r.Err? ==> r.error == Capacity && SettlingStopped(store.codec, old(store.disk.operations), store.disk, clock)
      ensures n >= |Interrupted(old(store.disk.operations), clock)| && old(RoomFor(store.codec, store.disk.operations, n))
              && (forall id :: id in Interrupted(old(store.disk.operations), clock) ==> RestartFits(store.codec, old(store.disk.operations)[id], clock)) ==>
                r.Ok?
    {
      hide AgentStateStore.Valid, AgentStateStore.BaseSound, AgentStateStore.LinkSound, RunsIndexed, OperationsIndexed, SettledLinks, StagedExactly,
           RoomFor, RestartSettled, RestartFits, RestartRefused, AtRest, Settling, Interrupted, RestartedAlone;
      store.IsKeyed();
      ghost var before := store.disk.operations;
      var left := FenceInterrupted(clock);
      SettlingStart(before, clock);
      ghost var room := n >= |left| && RoomFor(store.codec, before, n) && forall id :: id in left ==> RestartFits(store.codec, before[id], clock);
      ghost var m: nat := n;
      while left != {}
        invariant Valid() && StagedExactly(store.disk.operations, store.disk.prompts)
        invariant SettledLinks(store.disk.runs, store.disk.operations)
        invariant store.LinkSound() <==> old(store.LinkSound())
        invariant SameButDispatch(old(store.disk), store.disk) && store.disk.operations.Keys == before.Keys
        invariant Settling(before, store.disk.operations, left, clock) && left <= before.Keys
        invariant room ==> m >= |left| && RoomFor(store.codec, store.disk.operations, m) && forall id :: id in left ==> RestartFits(store.codec, before[id], clock)
        decreases left
      {
        var id :| id in left;
        StillInterrupted(before, store.disk.operations, left, clock, id);
        ghost var operations := store.disk.operations;
        var one := SettleOneInterrupted(id, clock, m);
        if one.Err? {
          return Err(one.error);
        }
        SettlingStep(before, operations, left, clock, id, store.disk.operations[id]);
        left := left - {id};
        m := if m > 0 then m - 1 else 0;
      }
      AllSettledAlone(before, store.disk.operations, clock);
      r := Ok(());
    }
  }

  /**
   * The first half of `AgentRuntime::open`, on any directory: the store's own checks, then the run indexes.
   * A reference or a turn that two runs share makes it fail as corrupt, whatever wrote it.
   */
  method OpenIndexed(codec: Codec, disk: Disk, server: Text, ghost h: History) returns (r: Result<AgentRuntime>)
    requires Replay(h).disk == disk
    ensures !Opens(codec, disk) ==> r.Err? && OpenRefused(codec, disk, r.error)
    ensures Opens(codec, disk) && (!EventsUnique(disk.runs) || !TurnsUnique(disk.runs)) ==> r == Err(Corrupt)
    ensures Opens(codec, disk) && EventsUnique(disk.runs) && TurnsUnique(disk.runs) && SequencesUnique(disk.runs) ==> r.Ok?
    ensures BaseHistory(codec, h) ==> r.Ok?
    ensures r.Ok? ==>
              && fresh(r.value) && fresh(r.value.store) && r.value.store.codec == codec && r.value.store.disk == Cleaned(disk)
              && r.value.fences == map[] && r.value.inputs == map[]
              && (BaseHistory(codec, h) ==>
                    && r.value.store.Valid() && r.value.store.BaseSound() && (r.value.store.LinkSound() <==> LinkHistory(h))
                    && BodiesExact(codec, r.value.store.disk)
                    && r.value.RunsIndexed()
                    && CurrentNewest(disk.runs, r.value.currentByBinding) && PanesNewest(disk.runs, r.value.currentByPane)
                    && ShowsLatest(disk.runs, r.value.currentByPane))
  {
    hide BaseHistory, LinkHistory, Replay, RunsStored, OperationsStored, EventsExact, TurnsExact, CurrentExact, PanesExact, EventsUnique, TurnsUnique, SequencesUnique,
         CurrentNewest, PanesNewest, AgentStateStore.Counted, ShowsLatest, BodiesExact, RunsReadable, OperationsReadable;
    var store := new AgentStateStore.Attach(codec, disk, h);
    var checked := store.Open();
    if checked.Err? {
      return Err(checked.error);
    }
    ReadableWhenOpened(codec, disk);
    var runtime := new AgentRuntime.Unindexed(store, server);
    var rebuilt := runtime.RebuildRuns();
    r := if rebuilt.Ok? then Ok(runtime) else Err(rebuilt.error);
  }

  lemma ReadableWhenOpened(c: Codec, d: Disk)
    ensures Opens(c, d) ==>
              Cleans(c, d) && RunsReadable(c, Cleaned(d)) && |Cleaned(d).runs| <= RUN_STORE_MAX_RECORDS
  {
    hide ValidRun, BodiesExact, OperationsReadable;
  }

  /**
   * `AgentRuntime::open` on a directory lawful records make up, wherever its history was cut off. With room
   * for what it has to write it succeeds exactly when every claim holds; `left` is the directory at the end.
   * Afterwards every index is exact, every claim is confirmed, nothing is half-dispatched, and prompts and
   * bodies are exactly those still referred to.
   */
  method OpenRuntime(codec: Codec, disk: Disk, server: Text, clock: Clock, ghost h: History) returns (r: Result<AgentRuntime>, ghost left: Disk)
    requires BaseHistory(codec, h) && Replay(h).disk == disk && Ticking(clock)
    // exactly when it succeeds
    ensures RestartRoom(codec, disk, clock) ==> (r.Ok? <==> Openable(disk))
    ensures r.Ok? ==> Openable(disk)
    ensures LinkHistory(h) ==> Openable(disk)
    // a refusal is what the directory as it then stands forces
    ensures SameButDispatch(Cleaned(disk), left) && left.operations.Keys == disk.operations.Keys
    ensures r.Err? ==> RestartStopped(codec, Cleaned(disk), left, clock, r.error)
    ensures Openable(disk) && r.Err? ==> r.error == Capacity
    // what it leaves
    ensures r.Ok? ==>
              && fresh(r.value) && fresh(r.value.store) && r.value.Valid() && r.value.store.codec == codec && r.value.store.disk == left
              && Reopened(codec, disk, left, clock)
              && CurrentNewest(disk.runs, r.value.currentByBinding) && PanesNewest(disk.runs, r.value.currentByPane)
              && ShowsLatest(disk.runs, r.value.currentByPane)
              && (LinkHistory(h) ==> r.value.Trusted())
  {
    hide BaseHistory, LinkHistory, Replay, RunsStored, OperationsStored, EventsExact, TurnsExact, CurrentExact, PanesExact, FenceExact, InputsExact,
         SettledLinks, CurrentNewest, PanesNewest, ShowsLatest, AgentStateStore.Counted, Openable, BodiesExact, RestartFits, RestartRefused, FirstStuck, Confirming,
         Settling, RoomFor, OpenClaims, Interrupted, RestartedTo, StagedExactly, EventsUnique, TurnsUnique, Opens, Keyed, OnlyStaged, OnlyReferenced;
    if LinkHistory(h) {
      SoundIsConfirmable(codec, h, disk);
    }
    var opening := OpenIndexed(codec, disk, server, h);
    var runtime := opening.value;
    runtime.RebuildOperations();
    ghost var start := runtime.store.disk;
    CleanedAlike(codec, disk, clock);
    StagedWhenExact(codec, start);
    var confirmed := runtime.ConfirmAll(clock);
    left := runtime.store.disk;
    ConfirmingKeys(start, left.operations);
    if confirmed.Err? {
      return Err(confirmed.error), left;
    }
    ghost var middle := left;
    InterruptedLeft(start, middle.operations, clock);
    InterruptedFits(codec, start, middle.operations, clock);
    var settled := runtime.SettleInterrupted(clock, |Interrupted(start.operations, clock)|);
    left := runtime.store.disk;
    if settled.Err? {
      return Err(settled.error), left;
    }
    ReopenedIs(codec, disk, start, middle, left, clock);
    r := Ok(runtime);
  }

  /** The directory a successful restart leaves. */
  ghost predicate Reopened(c: Codec, disk: Disk, left: Disk, clock: Clock) {
    && left.runs == disk.runs && left.meta == disk.meta
    && SettledLinks(left.runs, left.operations)
    && left.operations.Keys == disk.operations.Keys
    && (forall o :: o in left.operations ==>
          AtRest(left.operations[o], clock) && RestartedTo(disk, clock, o, left.operations[o]) && RestartedAs(disk, o, left.operations[o], clock(o)))
    && left.prompts.Keys == (set o | o in left.operations && left.operations[o].state == Prepared)
    && left.artifacts.Keys == (set id | id in disk.runs && disk.runs[id].HasBody())
  }

  /** Cleaning up bodies changes nothing a restart looks at. */
  lemma CleanedAlike(c: Codec, d: Disk, clock: Clock)
    ensures Openable(Cleaned(d)) <==> Openable(d)
    ensures RestartRoom(c, Cleaned(d), clock) <==> RestartRoom(c, d, clock)
    ensures Cleaned(d).runs == d.runs && Cleaned(d).operations == d.operations && Cleaned(d).meta == d.meta
  {
    hide RoomFor, LinkSettled, ConfirmedBy, OnlyStaged, OnlyReferenced, RestartFits, Interrupted;
    assert OpenClaims(Cleaned(d)) == OpenClaims(d);
    assert forall id :: id in d.runs ==> Confirmation(Cleaned(d), id) == Confirmation(d, id);
    assert forall id :: id in d.runs ==> (ClaimHolds(Cleaned(d), id) <==> ClaimHolds(d, id));
    assert forall id :: id in d.runs ==> (ConfirmationFits(c, Cleaned(d), id) <==> ConfirmationFits(c, d, id));
  }

  lemma InterruptedFits(c: Codec, start: Disk, operations: Operations, clock: Clock)
    requires Interrupted(operations, clock) <= Interrupted(start.operations, clock)
    requires forall id :: id in Interrupted(operations, clock) ==> id in operations && id in start.operations && operations[id] == start.operations[id]
    ensures |Interrupted(operations, clock)| <= |Interrupted(start.operations, clock)|
    ensures RestartRoom(c, start, clock) ==> forall id :: id in Interrupted(operations, clock) ==> RestartFits(c, operations[id], clock)
  {
    hide RoomFor, RestartFits, ConfirmationFits, AtRest, LinkSettled;
    CardOfPart(Interrupted(start.operations, clock), Interrupted(operations, clock));
  }

  lemma ReopenedIs(c: Codec, disk: Disk, start: Disk, middle: Disk, left: Disk, clock: Clock)
    requires start == Cleaned(disk) && SameButDispatch(start, middle) && SameButDispatch(middle, left)
    requires Keyed(start) && Confirming(start, middle.operations) && SettledLinks(middle.runs, middle.operations)
    requires Settling(middle.operations, left.operations, {}, clock) && SettledLinks(left.runs, left.operations)
    requires StagedExactly(left.operations, left.prompts) && BodiesExact(c, start)
    ensures Reopened(c, disk, left, clock)
  {
    hide ConfirmedBy, LinkSettled, SettledLinks, RestartSettled, OnlyStaged, OnlyReferenced, BodiesExact, StagedExactly, AtRest, RestartedTo, RestartedAs, Keyed, Confirming;
    ConfirmingKeys(start, middle.operations);
    StagedWhenExact(c, start);
    forall o | o in left.operations
      ensures AtRest(left.operations[o], clock) && RestartedTo(disk, clock, o, left.operations[o]) && RestartedAs(disk, o, left.operations[o], clock(o))
    {
      assert SettledNow(middle.operations[o], left.operations[o], clock);
      ConfirmedThenSettled(start, middle.operations, clock, o, left.operations[o]);
      RestartedAlike(disk, clock, o, left.operations[o]);
      KeyedOperation(start, o);
      RestartedIsAs(disk, clock, o, left.operations[o]);
    }
    PreparedAreStaged(left.operations, left.prompts, clock);
  }

  lemma KeyedOperation(d: Disk, o: OperationId)
    requires Keyed(d) && o in d.operations
    ensures d.operations[o].operationId == o
  {
  }

  lemma ConfirmingKeys(d: Disk, operations: Operations)
    requires Confirming(d, operations)
    ensures operations.Keys == d.operations.Keys
  {
  }

  lemma RestartedAlike(d: Disk, clock: Clock, o: OperationId, after: OperationRecord)
    requires o in d.operations && RestartedTo(Cleaned(d), clock, o, after)
    ensures RestartedTo(d, clock, o, after)
  {
    hide ConfirmedBy, LinkSettled, RestartSettled, AtRest, OnlyStaged, OnlyReferenced;
    if ConfirmedInstead(Cleaned(d), o, after) {
      var k :| k in d.runs && d.runs[k].operationId == Some(o) && !LinkSettled(d.runs[k], d.operations) && Confirmation(Cleaned(d), k) == Some(after);
      assert Confirmation(d, k) == Some(after);
      assert ConfirmedInstead(d, o, after);
    }
  }

  /**
   * Crash safety of the whole program: stop a runtime between any two of the durable writes that ever
   * made its directory, and a new one opens on what was left. `last` is the directory at the end of that.
   */
  method ReopenAfterCrash(running: AgentRuntime, ghost cut: History, left: Disk, server: Text, clock: Clock)
    returns (r: Result<AgentRuntime>, ghost last: Disk)
    requires running.Valid()
    requires CutOf(running.store.journal, cut) && Replay(cut).disk == left && Ticking(clock)
    ensures RestartRoom(running.store.codec, left, clock) ==> (r.Ok? <==> Openable(left))
    ensures running.store.LinkSound() ==> Openable(left)
    ensures r.Err? ==> SameButDispatch(Cleaned(left), last) && RestartStopped(running.store.codec, Cleaned(left), last, clock, r.error)
    ensures Openable(left) && r.Err? ==> r.error == Capacity
    ensures r.Ok? ==>
              && fresh(r.value) && fresh(r.value.store) && r.value.Valid() && r.value.store.disk == last
              && Reopened(running.store.codec, left, last, clock)
              && CurrentNewest(left.runs, r.value.currentByBinding) && PanesNewest(left.runs, r.value.currentByPane)
              && ShowsLatest(left.runs, r.value.currentByPane)
              && (running.store.LinkSound() ==> r.value.Trusted())
  {
    hide AgentStateStore.Valid, AgentRuntime.RunsIndexed, AgentRuntime.OperationsIndexed, SettledLinks, Replay, Openable, RestartRoom, RestartStopped,
         Reopened, CurrentNewest, PanesNewest, ShowsLatest;
    CutIsLawful(running.store.codec, running.store.journal, cut);
    r, last := OpenRuntime(running.store.codec, left, server, clock, cut);
  }

  /** `AgentRuntime::open` where no directory existed: every history of a runtime starts here. */
  method InitializeRuntime(codec: Codec, drawn: Generation, server: Text) returns (r: AgentRuntime)
    ensures fresh(r) && fresh(r.store) && r.Valid() && r.Trusted()
    ensures r.store.codec == codec && r.store.disk == Genesis(drawn).disk && r.store.journal == Opened(Genesis(drawn))
    ensures r.fences == map[] && r.currentByPane == map[]
  {
    hide BaseHistory, LinkHistory, EventsExact, TurnsExact, CurrentExact, PanesExact, FenceExact, InputsExact, RunsStored, OperationsStored,
         AgentStateStore.Counted;
    GenesisIsRecoverable(codec, drawn);
    NothingIndexed();
    NothingFenced();
    var store := new AgentStateStore.Attach(codec, Genesis(drawn).disk, Opened(Genesis(drawn)));
    StoredFromBase(codec, store.journal, store.disk);
    store.CountedWhenEmpty();
    r := new AgentRuntime.Unindexed(store, server);
  }
}
