/** The runtime loader as a whole: build the chain, run, judge. */
module LoaderMain {
  import opened Common
  import Machine
  import UserSpec
  import UserSafety
  import opened LoaderChain
  import LoaderMemory
  import LoaderSpec
  import LoaderSafety
  import LoaderSoundness
  import LoaderRun
  import TraceEquivalence

  /** The mapped memory as the device leaves it at some moment. */
  ghost function MemoryAt(env: UserSpec.Environment, h: Machine.History, n: nat): Memory {
    seq<Word>(n, i requires 0 <= i < n => env.memory(h, i))
  }

  /** Walking the command ring of a memory gives header and payload of this load. */
  predicate Carries(m: Memory, payload: seq<Word>) {
    var pages := PageCount(|payload|);
    && pages + 3 < RING_CAPACITY && |m| == (PAYLOAD_FIRST_PAGE + pages) * PAGE_WORDS && |payload| + 2 < WORD_LIMIT
    && Gather(m, 2, 3 + pages) == Some([LOADER_COMMAND, |payload| + 2] + payload)
  }

  /** The size of the window and the command position for a payload. */
  function WindowWords(payload: seq<Word>): nat {
    (PAYLOAD_FIRST_PAGE + PageCount(|payload|)) * PAGE_WORDS
  }

  function Position(payload: seq<Word>): Word
    requires PageCount(|payload|) + 3 < RING_CAPACITY
  {
    3 + PageCount(|payload|)
  }

  /** Loading a payload of any size. A payload that does not fit one ring is refused
      before anything happens. Any other run gives all guarantees of a run; when it
      succeeds, the moment of the run at which the memory was compared is one at which
      walking the command ring still gave the loader header and exactly this
      payload. */
  method RuntimeLoad(env: UserSpec.Environment, payload: seq<Word>, clock: Word)
    returns (success: bool, history: Machine.History, ghost snapshot: Memory, ghost r: LoaderSpec.LoadResult)
    ensures PageCount(|payload|) + 3 >= RING_CAPACITY ==> history == Machine.Boot && !success
    ensures PageCount(|payload|) + 3 < RING_CAPACITY ==>
              && Carries(snapshot, payload)
              && r == LoaderSpec.LoadRun(env, snapshot, Position(payload))
              && LoaderSoundness.Guaranteed(env, Position(payload), r)
              && success == r.success && history == r.cleaned.history
    ensures success ==>
              && r.driven.Some? && LoaderSpec.Delivered(r.driven.value)
              && Machine.Prefix(LoaderSpec.LastMoment(r.driven.value), history)
              && Machine.Writes(history) ==
                 Machine.Writes(LoaderSpec.LastMoment(r.driven.value)) + TraceEquivalence.QuiesceList()
              && Carries(MemoryAt(env, LoaderSpec.LastMoment(r.driven.value), WindowWords(payload)), payload)
  {
    hide Gather, BehindResponse, MemoryAt, SpanAt, LoaderSpec.LoadRun, LoaderSpec.Delivered, LoaderSpec.LastMoment;
    hide LoaderSoundness.Orderly, LoaderSafety.RunWrites, UserSafety.Ended, UserSafety.Settled, Machine.Prefix;
    var ok, memory, position := LoaderMemory.BuildChain(payload, clock);
    snapshot := memory[..];
    if !ok {
      r := LoaderSpec.LoadRun(env, snapshot, 0);
      return false, Machine.Boot, snapshot, r;
    }
    var judgement;
    success, judgement, history, r := LoaderRun.Load(env, memory[..], position);
    if success {
      Unchanged(env, snapshot, position, r);
      StillCarries(env, snapshot, LoaderSpec.LastMoment(r.driven.value), payload);
    }
  }

  /** The memory of a delivered run was compared at its last moment. */
  lemma Unchanged(env: UserSpec.Environment, snapshot: Memory, position: Word, r: LoaderSpec.LoadResult)
    requires r == LoaderSpec.LoadRun(env, snapshot, position)
    requires r.driven.Some? && LoaderSpec.Delivered(r.driven.value)
    ensures LoaderSpec.ConfinedToResponse(env, LoaderSpec.LastMoment(r.driven.value), snapshot)
  {
    hide LoaderSpec.SettingUp, LoaderSpec.LoaderStartup, LoaderSpec.Connected, LoaderSpec.Awaiting;
    hide LoaderSpec.Submitted, LoaderSpec.Waiting, LoaderSpec.Indexed, LoaderSpec.ConfinedToResponse;
  }

  lemma StillCarries(env: UserSpec.Environment, snapshot: Memory, checked: Machine.History, payload: seq<Word>)
    requires LoaderSpec.ConfinedToResponse(env, checked, snapshot) && Carries(snapshot, payload)
    requires BehindResponse(snapshot, 2, 3 + PageCount(|payload|))
    ensures Carries(MemoryAt(env, checked, |snapshot|), payload)
  {
    hide Gather, BehindResponse;
    GatherIgnoresResponse(snapshot, MemoryAt(env, checked, |snapshot|), 2, 3 + PageCount(|payload|));
  }
}
