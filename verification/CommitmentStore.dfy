/** The store of all channels' commitment states, and what every run of calls on it keeps. */
module CommitmentStore {
  import opened ByteBits
  import opened Primitives
  import opened Text
  import opened Channels
  import opened CommitmentState
  import opened CommitmentLedger
  import opened CommitmentReplay

  const SCHEMA_VERSION: nat := 2

  datatype Store = Store(version: nat, channels: map<Text, State>)

  const EMPTY_STORE: Store := Store(SCHEMA_VERSION, map[])

  predicate ChannelFine(env: Env, id: Text, st: State) {
    id == st.channelId && CheckState(env, st).None?
  }

  predicate OthersFine(env: Env, channels: map<Text, State>, id: Text) {
    forall x <- channels | x != id :: ChannelFine(env, x, channels[x])
  }

  /** The fault the check of a store reports after the channel `id` was changed. */
  function StoreFault(env: Env, s: Store, id: Text): Option<CommitmentError>
    requires id in s.channels
  {
    if s.version != SCHEMA_VERSION then Some(UnsupportedVersion(s.version))
    else if !OthersFine(env, s.channels, id) then Some(OtherChannelInvalid)
    else if id != s.channels[id].channelId then Some(StorageInvariant)
    else CheckState(env, s.channels[id])
  }

  /** Opening a channel: the outcome and the store afterwards. */
  function Initialize(env: Env, s: Store, c: StoredChannel): (Result<State, CommitmentError>, Store) {
    if c.channelId in s.channels then (Failure(DuplicateChannel), s)
    else
      var st := OpenState(env, c);
      if st.Failure? then (st, s)
      else
        var next := s.(channels := s.channels[c.channelId := st.value]);
        var fault := StoreFault(env, next, c.channelId);
        if fault.Some? then (Failure(fault.value), s) else (st, next)
  }

  /** Putting an updated state in its place, if the store as a whole still passes its check. */
  function Install(env: Env, s: Store, updated: Result<(State, Snapshot), CommitmentError>):
      (Result<Snapshot, CommitmentError>, Store)
  {
    if updated.Failure? then (Failure(updated.error), s)
    else
      var (st, snapshot) := updated.value;
      var next := s.(channels := s.channels[st.channelId := st]);
      var fault := StoreFault(env, next, st.channelId);
      if fault.Some? then (Failure(fault.value), s) else (Success(snapshot), next)
  }

  /** Applying an update: the outcome and the store afterwards. */
  function Apply(env: Env, s: Store, r: Request): (Result<Snapshot, CommitmentError>, Store) {
    if r.channelId !in s.channels then (Failure(UnknownChannel), s)
    else Install(env, s, UpdateState(env, s.channels[r.channelId], r))
  }

  class AssetCommitmentStore {
    const env: Env
    var version: nat
    var channels: map<Text, State>

    function Contents(): Store
      reads this
    {
      Store(version, channels)
    }

    constructor (env: Env)
      ensures this.env == env && Contents() == EMPTY_STORE
    {
      this.env := env;
      version := SCHEMA_VERSION;
      channels := map[];
    }

    method InitializeChannel(c: StoredChannel) returns (r: Result<State, CommitmentError>)
      modifies this
      ensures (r, Contents()) == Initialize(env, old(Contents()), c)
    {
      if c.channelId in channels {
        return Failure(DuplicateChannel);
      }
      var state := OpenState(env, c);
      if state.Failure? {
        return state;
      }
      var next := channels[c.channelId := state.value];
      var fault := StoreFault(env, Store(version, next), c.channelId);
      if fault.Some? {
        return Failure(fault.value);
      }
      channels := next;
      return state;
    }

    method ApplyUpdate(request: Request) returns (r: Result<Snapshot, CommitmentError>)
      modifies this
      ensures (r, Contents()) == Apply(env, old(Contents()), request)
    {
      if request.channelId !in channels {
        return Failure(UnknownChannel);
      }
      var updated := UpdateState(env, channels[request.channelId], request);
      if updated.Failure? {
        return Failure(updated.error);
      }
      var (st, snapshot) := updated.value;
      var next := channels[st.channelId := st];
      var fault := StoreFault(env, Store(version, next), st.channelId);
      if fault.Some? {
        return Failure(fault.value);
      }
      channels := next;
      return Success(snapshot);
    }

    method ChannelState(id: Text) returns (r: Result<State, CommitmentError>)
      ensures r == if id in channels then Success(channels[id]) else Failure(UnknownChannel)
    {
      return if id in channels then Success(channels[id]) else Failure(UnknownChannel);
    }

    /** Checks every channel, as loading and saving a store do. */
    method Validate() returns (ok: bool)
      ensures ok <==> version == SCHEMA_VERSION && forall id <- channels :: ChannelFine(env, id, channels[id])
    {
      if version != SCHEMA_VERSION {
        return false;
      }
      var left := channels.Keys;
      while left != {}
        invariant left <= channels.Keys
        invariant forall id <- channels | id !in left :: ChannelFine(env, id, channels[id])
        decreases |left|
      {
        var id :| id in left;
        if !ChannelFine(env, id, channels[id]) {
          return false;
        }
        left := left - {id};
      }
      return true;
    }
  }

  // ----- runs -----

  datatype Op = Open(channel: StoredChannel) | Update(request: Request)

  function Perform(env: Env, s: Store, op: Op): Store {
    match op
    case Open(c) => Initialize(env, s, c).1
    case Update(r) => Apply(env, s, r).1
  }

  /** The store after the calls, accepted or not, starting from an empty one. */
  function Run(env: Env, ops: seq<Op>): Store {
    if ops == [] then EMPTY_STORE else Perform(env, Run(env, ops[..|ops| - 1]), ops[|ops| - 1])
  }

  predicate Accepts(env: Env, s: Store, op: Op) {
    match op
    case Open(c) => Initialize(env, s, c).0.Success?
    case Update(r) => Apply(env, s, r).0.Success?
  }

  /** The channel that `id` was opened with. */
  function OpenedWith(env: Env, ops: seq<Op>, id: Text): Option<StoredChannel> {
    if ops == [] then None
    else
      var front, op := ops[..|ops| - 1], ops[|ops| - 1];
      if op.Open? && op.channel.channelId == id && Accepts(env, Run(env, front), op) then Some(op.channel)
      else OpenedWith(env, front, id)
  }

  /** The updates of `id` accepted during the run, in order. */
  function Log(env: Env, ops: seq<Op>, id: Text): seq<Request> {
    if ops == [] then []
    else
      var front, op := ops[..|ops| - 1], ops[|ops| - 1];
      if op.Update? && op.request.channelId == id && Accepts(env, Run(env, front), op) then
        Log(env, front, id) + [op.request]
      else Log(env, front, id)
  }

  // ----- what one call does -----

  lemma InitializeEffect(env: Env, s: Store, c: StoredChannel)
    ensures var (r, next) := Initialize(env, s, c);
            && (r.Failure? ==> next == s)
            && (r.Success? ==>
                  && c.channelId !in s.channels && OpenState(env, c) == r
                  && CheckState(env, r.value).None? && r.value.channelId == c.channelId
                  && next == s.(channels := s.channels[c.channelId := r.value]))
  {
  }

  lemma UpdatedId(env: Env, st: State, r: Request)
    requires UpdateState(env, st, r).Success?
    ensures UpdateState(env, st, r).value.0.channelId == st.channelId == r.channelId
  {
    Updated(env, st, r);
    Validated(env, st, r);
  }

  lemma InstallEffect(env: Env, s: Store, updated: Result<(State, Snapshot), CommitmentError>)
    ensures var (result, next) := Install(env, s, updated);
            && (result.Failure? ==> next == s)
            && (result.Success? ==>
                  && updated.Success? && result == Success(updated.value.1)
                  && CheckState(env, updated.value.0).None?
                  && next == s.(channels := s.channels[updated.value.0.channelId := updated.value.0]))
  {
  }

  lemma ApplyEffect(env: Env, s: Store, r: Request)
    ensures var (result, next) := Apply(env, s, r);
            && (result.Failure? ==> next == s)
            && (result.Success? ==>
                  && r.channelId in s.channels
                  && var updated := UpdateState(env, s.channels[r.channelId], r);
                     && updated.Success? && CheckState(env, updated.value.0).None?
                     && updated.value.0.channelId == r.channelId
                     && result == Success(updated.value.1)
                     && next == s.(channels := s.channels[r.channelId := updated.value.0]))
  {
    if r.channelId in s.channels {
      var updated := UpdateState(env, s.channels[r.channelId], r);
      InstallEffect(env, s, updated);
      if updated.Success? {
        UpdatedId(env, s.channels[r.channelId], r);
      }
    }
  }

  // ----- every reachable store passes its own check -----

  ghost predicate StoreFine(env: Env, s: Store) {
    s.version == SCHEMA_VERSION && forall id <- s.channels :: ChannelFine(env, id, s.channels[id])
  }

  lemma StoreFineStep(env: Env, s: Store, id: Text, st: State)
    requires StoreFine(env, s) && ChannelFine(env, id, st)
    ensures StoreFine(env, s.(channels := s.channels[id := st]))
  {
  }

  lemma PerformFine(env: Env, s: Store, op: Op)
    requires StoreFine(env, s)
    ensures StoreFine(env, Perform(env, s, op))
  {
    match op
    case Open(c) =>
      InitializeEffect(env, s, c);
      if Initialize(env, s, c).0.Success? {
        StoreFineStep(env, s, c.channelId, Initialize(env, s, c).0.value);
      }
    case Update(r) =>
      ApplyEffect(env, s, r);
      if Apply(env, s, r).0.Success? {
        StoreFineStep(env, s, r.channelId, UpdateState(env, s.channels[r.channelId], r).value.0);
      }
  }

  lemma {:induction false} RunFine(env: Env, ops: seq<Op>)
    ensures StoreFine(env, Run(env, ops))
  {
    if ops != [] {
      RunFine(env, ops[..|ops| - 1]);
      PerformFine(env, Run(env, ops[..|ops| - 1]), ops[|ops| - 1]);
    }
  }

  // ----- every reachable channel is explained by its log -----

  /** The channel's state is explained by how it was opened and by the updates accepted since. */
  ghost predicate ChannelTracks(env: Env, id: Text, st: State, origin: Option<StoredChannel>, log: seq<Request>) {
    && origin.Some? && origin.value.channelId == id
    && Tracks(env, origin.value, log, st)
  }

  ghost predicate StoreTracks(env: Env, ops: seq<Op>, s: Store) {
    forall id: Text ::
      if id in s.channels then
        ChannelTracks(env, id, s.channels[id], OpenedWith(env, ops, id), Log(env, ops, id))
      else Log(env, ops, id) == []
  }

  lemma OpenedTracks(env: Env, c: StoredChannel)
    requires OpenState(env, c).Success? && CheckState(env, OpenState(env, c).value).None?
    ensures ChannelTracks(env, c.channelId, OpenState(env, c).value, Some(c), [])
  {
    OpensAtZero(env, c);
    var st := OpenState(env, c).value;
    StateChecked(env, st);
  }

  lemma {:induction false} OpenPast(env: Env, ops: seq<Op>, c: StoredChannel, id: Text)
    ensures var accepted := Initialize(env, Run(env, ops), c).0.Success?;
            && Run(env, ops + [Open(c)]) == Initialize(env, Run(env, ops), c).1
            && Log(env, ops + [Open(c)], id) == Log(env, ops, id)
            && OpenedWith(env, ops + [Open(c)], id) ==
                 if c.channelId == id && accepted then Some(c) else OpenedWith(env, ops, id)
  {
    assert (ops + [Open(c)])[..|ops|] == ops;
  }

  lemma {:induction false} UpdatePast(env: Env, ops: seq<Op>, r: Request, id: Text)
    ensures var accepted := Apply(env, Run(env, ops), r).0.Success?;
            && Run(env, ops + [Update(r)]) == Apply(env, Run(env, ops), r).1
            && OpenedWith(env, ops + [Update(r)], id) == OpenedWith(env, ops, id)
            && Log(env, ops + [Update(r)], id) ==
                 if r.channelId == id && accepted then Log(env, ops, id) + [r] else Log(env, ops, id)
  {
    assert (ops + [Update(r)])[..|ops|] == ops;
  }

  /** One channel after an opening call. */
  lemma {:induction false} OpenKeeps(env: Env, ops: seq<Op>, c: StoredChannel, id: Text)
    requires StoreTracks(env, ops, Run(env, ops))
    ensures var ops' := ops + [Open(c)];
            var s := Run(env, ops');
            if id in s.channels then
              ChannelTracks(env, id, s.channels[id], OpenedWith(env, ops', id), Log(env, ops', id))
            else Log(env, ops', id) == []
  {
    var s := Run(env, ops);
    OpenPast(env, ops, c, id);
    InitializeEffect(env, s, c);
    if Initialize(env, s, c).0.Success? && id == c.channelId {
      OpenedTracks(env, c);
    }
  }

  /** One channel after an update call. */
  lemma {:induction false} ApplyKeeps(env: Env, ops: seq<Op>, r: Request, id: Text)
    requires StoreTracks(env, ops, Run(env, ops))
    ensures var ops' := ops + [Update(r)];
            var s := Run(env, ops');
            if id in s.channels then
              ChannelTracks(env, id, s.channels[id], OpenedWith(env, ops', id), Log(env, ops', id))
            else Log(env, ops', id) == []
  {
    var s := Run(env, ops);
    UpdatePast(env, ops, r, id);
    ApplyEffect(env, s, r);
    if Apply(env, s, r).0.Success? && id == r.channelId {
      UpdateKeeps(env, OpenedWith(env, ops, id).value, Log(env, ops, id), s.channels[id], r);
    }
  }

  /** Every run of opened channels and accepted or refused updates leaves each channel with balances
      that are the opening ones minus everything sent plus everything received, commitments numbered
      exactly 1 to the latest, every earlier number revoked by its successor, and nonces in one-to-one
      correspondence with commitments. */
  lemma {:induction false} RunTracks(env: Env, ops: seq<Op>)
    ensures StoreTracks(env, ops, Run(env, ops))
  {
    if ops != [] {
      var front, op := ops[..|ops| - 1], ops[|ops| - 1];
      RunTracks(env, front);
      assert ops == front + [op];
      forall id: Text
        ensures var s := Run(env, ops);
                if id in s.channels then
                  ChannelTracks(env, id, s.channels[id], OpenedWith(env, ops, id), Log(env, ops, id))
                else Log(env, ops, id) == []
      {
        match op
        case Open(c) => OpenKeeps(env, front, c, id);
        case Update(r) => ApplyKeeps(env, front, r, id);
      }
    }
  }

  lemma {:induction false} LoggedChannel(env: Env, ops: seq<Op>, id: Text, i: nat)
    requires i < |Log(env, ops, id)|
    ensures Log(env, ops, id)[i].channelId == id
  {
    var front := ops[..|ops| - 1];
    if i < |Log(env, front, id)| {
      LoggedChannel(env, front, id, i);
    }
  }

  /** No request accepted in a run is accepted again at its end. */
  lemma {:induction false} NoUpdateTwice(env: Env, ops: seq<Op>, id: Text, i: nat)
    requires i < |Log(env, ops, id)|
    ensures var r := Log(env, ops, id)[i]; Apply(env, Run(env, ops), r).0.Failure?
  {
    var s, r := Run(env, ops), Log(env, ops, id)[i];
    RunTracks(env, ops);
    LoggedChannel(env, ops, id, i);
    ApplyEffect(env, s, r);
    if id in s.channels {
      NoReplay(env, OpenedWith(env, ops, id).value, Log(env, ops, id), s.channels[id], i);
    }
  }

  lemma OthersStayFine(env: Env, s: Store, id: Text, st: State)
    requires StoreFine(env, s)
    ensures OthersFine(env, s.channels[id := st], id)
  {
  }

  lemma OnlyItsChannelMatters(env: Env, s: Store, r: Request)
    requires StoreFine(env, s)
    ensures Apply(env, s, r).0.Success? <==>
              && r.channelId in s.channels
              && UpdateState(env, s.channels[r.channelId], r).Success?
              && CheckState(env, UpdateState(env, s.channels[r.channelId], r).value.0).None?
  {
    if r.channelId in s.channels && UpdateState(env, s.channels[r.channelId], r).Success? {
      UpdatedId(env, s.channels[r.channelId], r);
      OthersStayFine(env, s, r.channelId, UpdateState(env, s.channels[r.channelId], r).value.0);
    }
  }

  /** After every run an update is applied exactly when its channel is open, the request passes the
      validator, its transaction id is not zero, its names are not the funding's and LDK accepts. */
  lemma {:induction false} ApplyAcceptance(env: Env, ops: seq<Op>, r: Request)
    ensures var s := Run(env, ops);
            Apply(env, s, r).0.Success? <==>
              && r.channelId in s.channels
              && var st := s.channels[r.channelId];
                 && ValidateUpdate(env, st, r).Success? && r.virtualTxId != ZERO32
                 && FreeIds(st, EntryFor(env, st, r, ValidateUpdate(env, st, r).value))
                 && LdkAccepts(env, st, r, ValidateUpdate(env, st, r).value)
  {
    RunTracks(env, ops);
    RunFine(env, ops);
    var s := Run(env, ops);
    OnlyItsChannelMatters(env, s, r);
    if r.channelId in s.channels {
      var id := r.channelId;
      assert ChannelFine(env, id, s.channels[id]);
      UpdateAcceptance(env, OpenedWith(env, ops, id).value, Log(env, ops, id), s.channels[id], r);
    }
  }

  /** After every run the request built for a known channel with an unused nonce is applied, moving
      exactly the requested amounts, unless LDK refuses it, its transaction id is zero or its names are the
      funding's. */
  lemma {:induction false} BuiltUpdateApplies(env: Env, ops: seq<Op>, id: Text, out: u64, in_: u64, nonce: Bytes32)
    requires id in Run(env, ops).channels
    requires BuildUpdate(env, Run(env, ops).channels[id], out, in_, nonce).Success?
    requires nonce !in Run(env, ops).channels[id].usedNonces
    ensures var st := Run(env, ops).channels[id];
            var r := BuildUpdate(env, st, out, in_, nonce).value;
            var applied := Apply(env, Run(env, ops), r).0;
            && ValidateUpdate(env, st, r).Success?
            && (applied.Success? <==>
                  && r.virtualTxId != ZERO32
                  && FreeIds(st, EntryFor(env, st, r, ValidateUpdate(env, st, r).value))
                  && LdkAccepts(env, st, r, ValidateUpdate(env, st, r).value))
            && (applied.Success? ==>
                  && applied.value.local == st.local - out + in_ && applied.value.remote == st.remote - in_ + out
                  && applied.value.number == st.latest + 1)
  {
    var s := Run(env, ops);
    var st := s.channels[id];
    RunFine(env, ops);
    assert ChannelFine(env, id, st);
    var r := BuildUpdate(env, st, out, in_, nonce).value;
    BuiltUpdatePasses(env, st, out, in_, nonce);
    ApplyAcceptance(env, ops, r);
    Validated(env, st, r);
    ApplyEffect(env, s, r);
    if Apply(env, s, r).0.Success? {
      Updated(env, st, r);
    }
  }

  // ----- where the channels of a run come from -----

  lemma {:induction false} OpenedAmong(env: Env, ops: seq<Op>, id: Text)
    requires OpenedWith(env, ops, id).Some?
    ensures Open(OpenedWith(env, ops, id).value) in ops
  {
    var front, op := ops[..|ops| - 1], ops[|ops| - 1];
    if !(op.Open? && op.channel.channelId == id && Accepts(env, Run(env, front), op)) {
      OpenedAmong(env, front, id);
    }
  }

  /** Every channel of a run carries the funding names of one of the channels the run opened. */
  lemma {:induction false} NamesFromOpening(env: Env, ops: seq<Op>, id: Text)
    requires id in Run(env, ops).channels
    ensures var st := Run(env, ops).channels[id];
            exists op :: op in ops && op.Open? && op.channel.channelId == id
                         && st.fundingRecordId == op.channel.historyRecordId
                         && st.fundingOutputId == op.channel.historyOutputId
  {
    RunTracks(env, ops);
    OpenedAmong(env, ops, id);
    var c := OpenedWith(env, ops, id).value;
    assert ChannelTracks(env, id, Run(env, ops).channels[id], Some(c), Log(env, ops, id));
    assert Open(c) in ops;
  }
}
