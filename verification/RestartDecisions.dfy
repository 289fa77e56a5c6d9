/** What one booting worker decides about the evolution campaign, inside the state lock. */
module RestartDecisions {
  import opened Options

  datatype Outcome = Open | Absorbed | Abandoned

  datatype CommitReceipt = CommitReceipt(ok: bool, campaignId: string, txId: string, taskId: string, commit: string)

  /** An evolution transaction. `strictSchema` tells a version-two transaction from a legacy one. */
  datatype Tx = Tx(
    id: string,
    taskId: string,
    strictSchema: bool,
    receipt: Option<CommitReceipt>,
    commit: string,
    restartVerified: bool,
    counted: bool,
    outcome: Outcome)

  /** The campaign file. `running` is a status of active or paused, `stopIntent` a recorded Stop,
      `stamp` the last generation that reconciled at boot. */
  datatype Campaign = Campaign(
    id: string,
    running: bool,
    stopIntent: bool,
    stamp: string,
    active: Option<Tx>,
    absorbedDone: nat,
    history: seq<Tx>)

  /** The evolution claim a restart marker carries: none, something that is no mapping, or one. */
  datatype Claim = NoClaim | BadClaim | Claim(campaignId: string, txId: string, taskId: string, commit: string)

  datatype Marker = Unreadable | Marker(expected: string, claim: Claim)

  /** What the worker knows of its own boot. */
  datatype Boot = Boot(generation: string, sha: string)

  /** The unlocked look at the campaign: its commit, whether it was seen to be contained in the
      serving one (an unanswered check is no), whose task it is, and whether that task's
      candidate holds it (None: unreadable). */
  datatype Snapshot = Snapshot(commit: string, reachable: bool, taskId: string, held: Option<bool>)

  /** What the worker reads while it holds the lock: whether the owner is known not to have
      stopped, whether the native inputs failed, and which commit the intent names as its own
      at the observed SHA and in the task's candidate ("" for none). */
  datatype Reading = Reading(stopClear: bool, nativeFailed: bool, intentAtHead: string, intentInCandidate: string)

  /** The decision: what to write, the transaction it closes, whether the marker is settled. */
  datatype Decision = Decision(write: Option<Campaign>, closes: Option<Tx>, durable: bool)

  const HISTORY_LIMIT := 50

  function LastOf<T>(items: seq<T>, limit: nat): seq<T> {
    if |items| <= limit then items else items[|items| - limit..]
  }

  predicate Recorded(history: seq<Tx>, id: string) {
    exists i :: 0 <= i < |history| && history[i].id == id
  }

  /** Append unless an entry with the same non-empty id is there; keep the newest entries. */
  function AppendUnique(history: seq<Tx>, tx: Tx): seq<Tx> {
    if tx.id != "" && Recorded(history, tx.id) then LastOf(history, HISTORY_LIMIT)
    else LastOf(history + [tx], HISTORY_LIMIT)
  }

  predicate ReceiptValid(campaign: Campaign, tx: Tx) {
    tx.receipt == Some(CommitReceipt(true, campaign.id, tx.id, tx.taskId, tx.commit))
  }

  predicate Strict(tx: Tx, claim: Claim) {
    tx.strictSchema || tx.receipt.Some? || !claim.NoClaim?
  }

  /** Whether the exact authority for a restart fails; a marker path needs its claim. */
  predicate AuthorityFails(campaign: Campaign, tx: Tx, claim: Claim, needsClaim: bool, nativeFailed: bool) {
    if !Strict(tx, claim) then nativeFailed
    else
      || (needsClaim && !claim.Claim?)
      || (claim.Claim? && claim != Claim(campaign.id, tx.id, tx.taskId, tx.commit))
      || !ReceiptValid(campaign, tx)
      || nativeFailed
  }

  function Stamped(campaign: Campaign, generation: string): Campaign {
    if generation == "" then campaign else campaign.(stamp := generation)
  }

  /** The transaction with `commit` recorded and its receipt made good. */
  function Adopted(campaign: Campaign, tx: Tx, commit: string): Tx {
    tx.(commit := commit, restartVerified := false,
        receipt := Some(CommitReceipt(true, campaign.id, tx.id, tx.taskId, commit)))
  }

  function Count(tx: Tx, done: nat): nat {
    if tx.counted then done else done + 1
  }

  /** The campaign once `tx` is absorbed; every absorbing path ends here. */
  function Absorb(campaign: Campaign, tx: Tx): (Campaign, Tx) {
    var closed := tx.(restartVerified := true, counted := true, outcome := Absorbed);
    (campaign.(absorbedDone := Count(tx, campaign.absorbedDone), active := None,
               history := AppendUnique(campaign.history, closed)), closed)
  }

  function Abandon(campaign: Campaign, tx: Tx): (Campaign, Tx) {
    var closed := tx.(restartVerified := false, outcome := Abandoned);
    (campaign.(active := None, history := AppendUnique(campaign.history, closed)), closed)
  }

  // ---- no marker to claim: reconcile a transaction left dangling, once per generation ----

  /** A transaction whose commit is settled and is the one the snapshot looked at. */
  function ReconcileCommitted(
      campaign: Campaign, tx: Tx, boot: Boot, reachable: bool, held: Option<bool>, nativeFailed: bool): Decision {
    var stamped := campaign.(stamp := boot.generation);
    if AuthorityFails(campaign, tx, NoClaim, false, nativeFailed) then
      Decision(Some(stamped.(active := Some(tx.(restartVerified := false)))), None, false)
    else if !reachable && held != Some(false) then
      Decision(Some(stamped.(active := Some(tx.(restartVerified := false)))), None, false)
    else
      var (next, closed) := if reachable then Absorb(stamped, tx) else Abandon(stamped, tx);
      Decision(Some(next), Some(closed), false)
  }

  function StampOnly(campaign: Campaign, generation: string): Decision {
    if generation == "" then Decision(None, None, false)
    else Decision(Some(Stamped(campaign, generation)), None, false)
  }

  function ReconcileOpen(campaign: Campaign, tx: Tx, boot: Boot, snapshot: Snapshot, reading: Reading): Decision {
    if tx.restartVerified then StampOnly(campaign, boot.generation)
    else if tx.commit == "" then
      if reading.intentAtHead != "" then
        ReconcileCommitted(campaign, Adopted(campaign, tx, reading.intentAtHead), boot, true, None,
          reading.nativeFailed)
      else if reading.intentInCandidate != "" then
        var adopted := Adopted(campaign, tx, reading.intentInCandidate);
        Decision(Some(Stamped(campaign, boot.generation).(active := Some(adopted))), None, false)
      else StampOnly(campaign, boot.generation)
    else if tx.commit != snapshot.commit then StampOnly(campaign, boot.generation)
    else
      ReconcileCommitted(campaign, tx, boot, snapshot.reachable,
                         if tx.taskId == snapshot.taskId then snapshot.held else None, reading.nativeFailed)
  }

  function Reconcile(campaign: Campaign, boot: Boot, snapshot: Snapshot, reading: Reading): Decision {
    if !reading.stopClear || campaign.stopIntent || !campaign.running then Decision(None, None, false)
    else if boot.generation != "" && campaign.stamp == boot.generation then Decision(None, None, false)
    else match campaign.active
      case None => StampOnly(campaign, boot.generation)
      case Some(tx) => ReconcileOpen(campaign, tx, boot, snapshot, reading)
  }

  // ---- the winner of the marker: verify the restart it asked for ----

  predicate ShaOk(marker: Marker, boot: Boot) {
    marker.Marker? && marker.expected != "" && marker.expected == boot.sha
  }

  function ClaimOf(marker: Marker): Claim {
    if marker.Marker? then marker.claim else NoClaim
  }

  function MarkAuthorized(campaign: Campaign, tx: Tx, boot: Boot, marker: Marker): Decision {
    var stamped := Stamped(campaign, boot.generation);
    var expected := if marker.Marker? then marker.expected else "";
    if tx.commit != "" && tx.commit != expected then
      Decision(Some(stamped.(active := Some(tx.(restartVerified := false)))), None, true)
    else if !ShaOk(marker, boot) then
      Decision(Some(stamped.(active := Some(tx.(restartVerified := false)))), None, true)
    else if tx.commit != "" then
      var (next, closed) := Absorb(stamped, tx);
      Decision(Some(next), Some(closed), true)
    else
      var closed := tx.(restartVerified := true);
      Decision(Some(stamped.(active := None, history := AppendUnique(campaign.history, closed))), Some(closed), true)
  }

  function MarkVerified(campaign: Campaign, boot: Boot, marker: Marker, reading: Reading): Decision {
    var claim := ClaimOf(marker);
    if campaign.active.None? then Decision(None, None, true)
    else if !reading.stopClear || campaign.stopIntent || !campaign.running then Decision(None, None, true)
    else
      var tx := campaign.active.value;
      if AuthorityFails(campaign, tx, claim, true, reading.nativeFailed) then
        Decision(Some(Stamped(campaign, boot.generation).(active := Some(tx.(restartVerified := false)))), None, true)
      else if claim.Claim? && boot.generation != "" && campaign.stamp == boot.generation then
        Decision(None, None, false)
      else MarkAuthorized(campaign, tx, boot, marker)
  }

  // ---- properties of the decisions alone ----

  ghost predicate UniqueIds(history: seq<Tx>) {
    forall i, j :: 0 <= i < j < |history| && history[i].id != "" ==> history[i].id != history[j].id
  }

  /** Whatever the history holds and whatever is appended: no non-empty id occurs twice, at
      most fifty entries stay, and they are the newest ones. */
  lemma AppendUniqueKeeps(history: seq<Tx>, tx: Tx)
    requires UniqueIds(history)
    ensures var after := AppendUnique(history, tx);
      && UniqueIds(after)
      && |after| == (var all := if tx.id != "" && Recorded(history, tx.id) then history else history + [tx];
                     if |all| < HISTORY_LIMIT then |all| else HISTORY_LIMIT)
      && (tx.id != "" && Recorded(history, tx.id) ==> after == history[|history| - |after|..])
      && (tx.id == "" || !Recorded(history, tx.id) ==> after == (history + [tx])[|history| + 1 - |after|..])
      && (tx.id == "" || !Recorded(history, tx.id) ==> |after| > 0 && after[|after| - 1] == tx)
  {
    var longer := history + [tx];
    if tx.id == "" || !Recorded(history, tx.id) {
      assert UniqueIds(longer);
    }
  }

  predicate Bound(tx: Tx) {
    tx.strictSchema || tx.receipt.Some?
  }

  /** What it takes to close a transaction at boot. Without a marker, and for a bound
      transaction also with one, the campaign must not yet carry this generation's stamp; a
      bound one needs its valid receipt. An absorbed commit is the expected and serving one,
      reachable from it, or proven by the intent; an abandoned one was not seen to
      be reachable and is positively not held. */
  ghost predicate JustifiedClose(
      before: Campaign, boot: Boot, closed: Tx, viaMarker: bool, snapshot: Snapshot, reading: Reading) {
    && before.active.Some? && closed.id == before.active.value.id && closed.taskId == before.active.value.taskId
    && closed.strictSchema == before.active.value.strictSchema
    && (!viaMarker || Bound(closed) ==> boot.generation == "" || before.stamp != boot.generation)
    && !reading.nativeFailed
    && (Bound(closed) ==> ReceiptValid(before, closed))
    && match closed.outcome
       case Absorbed =>
         && closed.commit != ""
         && (if viaMarker then closed.commit == boot.sha
             else (closed.commit == snapshot.commit && snapshot.reachable) || closed.commit == reading.intentAtHead)
       case Abandoned =>
         && closed.commit != "" && !viaMarker
         && closed.commit == snapshot.commit && !snapshot.reachable
         && closed.taskId == snapshot.taskId && snapshot.held == Some(false)
       case Open => viaMarker && closed.commit == ""
  }

  predicate Fresh(tx: Tx) {
    !tx.counted && tx.outcome.Open?
  }

  lemma ReconcileIsJustified(campaign: Campaign, boot: Boot, snapshot: Snapshot, reading: Reading)
    requires Reconcile(campaign, boot, snapshot, reading).closes.Some?
    ensures JustifiedClose(campaign, boot, Reconcile(campaign, boot, snapshot, reading).closes.value, false, snapshot,
      reading)
  {
  }

  lemma MarkIsJustified(campaign: Campaign, boot: Boot, marker: Marker, snapshot: Snapshot, reading: Reading)
    requires MarkVerified(campaign, boot, marker, reading).closes.Some?
    requires campaign.active.Some? ==> Fresh(campaign.active.value)
    ensures JustifiedClose(campaign, boot, MarkVerified(campaign, boot, marker, reading).closes.value, true, snapshot,
      reading)
  {
  }

  /** Whether a markerless worker gets to look at the active transaction. */
  predicate MayReconcile(campaign: Campaign, boot: Boot, reading: Reading) {
    && reading.stopClear && !campaign.stopIntent && campaign.running
    && (boot.generation == "" || campaign.stamp != boot.generation)
  }

  /** A commit the transaction recorded and the snapshot looked at, or none and the intent's. */
  predicate SettledCommit(tx: Tx, snapshot: Snapshot, reading: Reading, commit: string) {
    commit != "" && !tx.restartVerified &&
    if tx.commit == "" then commit == reading.intentAtHead
    else commit == tx.commit && commit == snapshot.commit
  }

  predicate OnlyCandidateHas(tx: Tx, reading: Reading) {
    tx.commit == "" && !tx.restartVerified && reading.intentAtHead == "" && reading.intentInCandidate != ""
  }

  /** Without leave to look nothing is written. With it, and the authority it needs, a settled
      commit is absorbed exactly when it is proven at the serving SHA, abandoned exactly when it
      was neither seen reachable nor held; a commit that only the candidate has is recorded with
      its receipt and stays open. Either way a named generation is stamped, so it looks once. */
  lemma ReconcileClosesExactly(campaign: Campaign, boot: Boot, snapshot: Snapshot, reading: Reading)
    requires campaign.active.Some?
    ensures var tx, decision := campaign.active.value, Reconcile(campaign, boot, snapshot, reading);
      var mayClose := MayReconcile(campaign, boot, reading) && !reading.nativeFailed
        && (tx.commit != "" && Bound(tx) ==> ReceiptValid(campaign, tx));
      && (!MayReconcile(campaign, boot, reading) ==> decision == Decision(None, None, false))
      && (decision.closes.Some? && decision.closes.value.outcome.Absorbed? <==>
            mayClose
              && SettledCommit(tx, snapshot, reading, if tx.commit == "" then reading.intentAtHead else tx.commit)
              && (tx.commit == "" || snapshot.reachable))
      && (decision.closes.Some? && decision.closes.value.outcome.Abandoned? <==>
            mayClose && tx.commit != "" && SettledCommit(tx, snapshot, reading, tx.commit)
              && !snapshot.reachable && tx.taskId == snapshot.taskId && snapshot.held == Some(false))
      && (decision.closes.Some? ==> !decision.closes.value.outcome.Open?)
      && (MayReconcile(campaign, boot, reading) && OnlyCandidateHas(tx, reading) ==>
            && decision.write.Some? && decision.write.value.active.Some? && decision.closes.None?
            && decision.write.value.active.value.commit == reading.intentInCandidate
            && ReceiptValid(campaign, decision.write.value.active.value))
      && (MayReconcile(campaign, boot, reading) && boot.generation != "" ==>
            decision.write.Some? && decision.write.value.stamp == boot.generation)
  {
  }

  /** A receipt that names another campaign, transaction, task or commit, or is no good, closes
      nothing that needs one, by either path. */
  lemma ForeignReceiptClosesNothing(
      campaign: Campaign, boot: Boot, snapshot: Snapshot, marker: Marker, reading: Reading, receipt: CommitReceipt)
    requires campaign.active.Some? && campaign.active.value.receipt == Some(receipt)
    requires campaign.active.value.commit != ""
    requires var tx := campaign.active.value;
      || !receipt.ok || receipt.campaignId != campaign.id || receipt.txId != tx.id
      || receipt.taskId != tx.taskId || receipt.commit != tx.commit
    ensures Reconcile(campaign, boot, snapshot, reading).closes.None?
    ensures MarkVerified(campaign, boot, marker, reading).closes.None?
  {
  }

  /** What the marker must bring for the active transaction: its own exact claim and a valid
      receipt, in a generation not yet stamped, unless it is a legacy one without any claim. */
  predicate MarkerMayClose(campaign: Campaign, tx: Tx, boot: Boot, marker: Marker, reading: Reading) {
    && reading.stopClear && !campaign.stopIntent && campaign.running && !reading.nativeFailed
    && marker.Marker? && marker.expected != "" && marker.expected == boot.sha
    && (tx.strictSchema || tx.receipt.Some? || marker.claim != NoClaim ==>
          && marker.claim == Claim(campaign.id, tx.id, tx.taskId, tx.commit) && ReceiptValid(campaign, tx)
          && (boot.generation == "" || campaign.stamp != boot.generation))
  }

  /** The winner closes exactly then: absorbed when the commit is the expected one, uncounted
      when there is none. The marker is kept exactly when its server has not yet restarted. */
  lemma MarkClosesExactly(campaign: Campaign, boot: Boot, marker: Marker, reading: Reading)
    requires campaign.active.Some? && Fresh(campaign.active.value)
    ensures var tx, decision := campaign.active.value, MarkVerified(campaign, boot, marker, reading);
      && (decision.closes.Some? <==>
           MarkerMayClose(campaign, tx, boot, marker, reading) && (tx.commit == "" || tx.commit == boot.sha))
      && (decision.closes.Some? ==> (decision.closes.value.outcome.Absorbed? <==> tx.commit != ""))
      && (!decision.durable <==>
            && reading.stopClear && !campaign.stopIntent && campaign.running
            && !AuthorityFails(campaign, tx, ClaimOf(marker), true, reading.nativeFailed)
            && ClaimOf(marker).Claim? && boot.generation != "" && campaign.stamp == boot.generation)
  {
  }

  /** The counter rises by one with an absorbed transaction that was not counted before, and stands
      otherwise, by either path. */
  lemma CountsOnce(campaign: Campaign, boot: Boot, snapshot: Snapshot, marker: Marker, reading: Reading)
    requires campaign.active.Some? && campaign.active.value.outcome.Open?
    ensures RaisesBy(campaign, Reconcile(campaign, boot, snapshot, reading))
    ensures RaisesBy(campaign, MarkVerified(campaign, boot, marker, reading))
  {
  }

  ghost predicate RaisesBy(campaign: Campaign, decision: Decision)
    requires campaign.active.Some?
  {
    var absorbs := decision.closes.Some? && decision.closes.value.outcome.Absorbed?;
    && (absorbs ==> decision.write.Some? && decision.closes.value.counted)
    && (decision.write.Some? ==>
          decision.write.value.absorbedDone ==
            campaign.absorbedDone + (if absorbs && !campaign.active.value.counted then 1 else 0))
  }

  /** A worker that has leave to look and closes nothing: where it has nothing to judge it sets
      its stamp alone; a commit that an intent names is recorded, the one at the serving SHA
      first; a commit it may not close, or that awaits its adoption, keeps its transaction whole
      but for the verification. */
  lemma ReconcileKeepsExactly(campaign: Campaign, boot: Boot, snapshot: Snapshot, reading: Reading)
    requires MayReconcile(campaign, boot, reading) && campaign.active.Some?
    requires Reconcile(campaign, boot, snapshot, reading).closes.None?
    ensures var tx, write := campaign.active.value, Reconcile(campaign, boot, snapshot, reading).write;
      var intent := if reading.intentAtHead != "" then reading.intentAtHead else reading.intentInCandidate;
      if tx.restartVerified || (if tx.commit == "" then intent == "" else tx.commit != snapshot.commit) then
        write == if boot.generation == "" then None else Some(campaign.(stamp := boot.generation))
      else
        && write.Some? && write.value.active.Some?
        && write.value == campaign.(stamp := write.value.stamp, active := write.value.active)
        && (boot.generation != "" ==> write.value.stamp == boot.generation)
        && (tx.commit != "" ==> write.value.active == Some(tx.(restartVerified := false)))
        && (tx.commit == "" ==>
              && write.value.active.value.commit == intent && ReceiptValid(campaign, write.value.active.value)
              && KeptOpen(campaign, tx, write.value.active.value))
  {
  }

  /** The winner of the marker that closes nothing: without a transaction, without leave or in a
      generation already stamped it writes nothing; otherwise it sets its stamp and keeps the
      transaction whole but for the verification. */
  lemma MarkKeepsExactly(campaign: Campaign, boot: Boot, marker: Marker, reading: Reading)
    requires MarkVerified(campaign, boot, marker, reading).closes.None?
    ensures var decision := MarkVerified(campaign, boot, marker, reading);
      var leave := campaign.active.Some? && reading.stopClear && !campaign.stopIntent && campaign.running;
      && (decision.write.Some? <==> leave && decision.durable)
      && (decision.write.Some? ==>
            decision.write.value == campaign.(
              stamp := if boot.generation == "" then campaign.stamp else boot.generation,
              active := Some(campaign.active.value.(restartVerified := false))))
  {
  }

  /** The same transaction, or one that had no commit and gained one with its valid receipt. */
  ghost predicate SameOrRecovered(campaign: Campaign, before: Tx, after: Tx) {
    || after == before
    || (before.commit == "" && after.commit != "" && ReceiptValid(campaign, after)
        && after == before.(commit := after.commit, receipt := after.receipt))
  }

  /** A transaction kept open: at most its verification is taken back. */
  ghost predicate KeptOpen(campaign: Campaign, before: Tx, after: Tx) {
    && (after.restartVerified == before.restartVerified || !after.restartVerified)
    && SameOrRecovered(campaign, before, after.(restartVerified := before.restartVerified))
  }

  /** A transaction closed: its marks of the closure apart, it is the one that was open. */
  ghost predicate ClosedAs(campaign: Campaign, before: Tx, closed: Tx) {
    && closed.counted == closed.outcome.Absorbed? && closed.restartVerified == !closed.outcome.Abandoned?
    && SameOrRecovered(campaign, before,
         closed.(restartVerified := before.restartVerified, counted := before.counted, outcome := before.outcome))
  }

  /** What a decision does to the file: a closed transaction leaves it as it was and is appended
      once, counted exactly when absorbed; otherwise the same transaction stays with its commit
      and receipt. Beside the stamp nothing else changes. */
  ghost predicate CleanWrite(before: Campaign, generation: string, decision: Decision) {
    match decision.write
    case None => decision.closes.None?
    case Some(after) =>
      && after == before.(stamp := after.stamp, active := after.active, history := after.history,
                          absorbedDone := after.absorbedDone)
      && (after.stamp == before.stamp || after.stamp == generation)
      && (generation != "" ==> after.stamp == generation)
      && match decision.closes
         case Some(closed) =>
           && before.active.Some? && after.active.None?
           && ClosedAs(before, before.active.value, closed)
           && after.history == AppendUnique(before.history, closed)
           && after.absorbedDone == before.absorbedDone + (if closed.outcome.Absorbed? then 1 else 0)
         case None =>
           && after.history == before.history && after.absorbedDone == before.absorbedDone
           && (after.active.Some? <==> before.active.Some?)
           && (after.active.Some? ==> KeptOpen(before, before.active.value, after.active.value))
  }

  lemma CommittedWritesCleanly(
      campaign: Campaign, tx: Tx, boot: Boot, reachable: bool, held: Option<bool>, nativeFailed: bool)
    requires campaign.active.Some? && Fresh(tx) && tx.commit != ""
    requires var open := campaign.active.value;
      !open.restartVerified && (tx == open || (open.commit == "" && tx == Adopted(campaign, open, tx.commit)))
    ensures CleanWrite(campaign, boot.generation, ReconcileCommitted(campaign, tx, boot, reachable, held, nativeFailed))
  {
  }

  lemma StampWritesCleanly(campaign: Campaign, generation: string)
    requires campaign.active.Some? ==> Fresh(campaign.active.value)
    ensures CleanWrite(campaign, generation, StampOnly(campaign, generation))
  {
  }

  lemma UncommittedWritesCleanly(campaign: Campaign, boot: Boot, snapshot: Snapshot, reading: Reading)
    requires campaign.active.Some? && Fresh(campaign.active.value) && campaign.active.value.commit == ""
    ensures CleanWrite(campaign, boot.generation,
      ReconcileOpen(campaign, campaign.active.value, boot, snapshot, reading))
  {
    var tx := campaign.active.value;
    StampWritesCleanly(campaign, boot.generation);
    if !tx.restartVerified && reading.intentAtHead != "" {
      var adopted := Adopted(campaign, tx, reading.intentAtHead);
      CommittedWritesCleanly(campaign, adopted, boot, true, None, reading.nativeFailed);
    }
  }

  lemma RecordedWritesCleanly(campaign: Campaign, boot: Boot, snapshot: Snapshot, reading: Reading)
    requires campaign.active.Some? && Fresh(campaign.active.value) && campaign.active.value.commit != ""
    ensures CleanWrite(campaign, boot.generation,
      ReconcileOpen(campaign, campaign.active.value, boot, snapshot, reading))
  {
    var tx := campaign.active.value;
    StampWritesCleanly(campaign, boot.generation);
    if !tx.restartVerified {
      var held := if tx.taskId == snapshot.taskId then snapshot.held else None;
      CommittedWritesCleanly(campaign, tx, boot, snapshot.reachable, held, reading.nativeFailed);
    }
  }

  lemma ReconcileWritesCleanly(campaign: Campaign, boot: Boot, snapshot: Snapshot, reading: Reading)
    requires campaign.active.Some? ==> Fresh(campaign.active.value)
    ensures CleanWrite(campaign, boot.generation, Reconcile(campaign, boot, snapshot, reading))
  {
    if campaign.active.None? {
      StampWritesCleanly(campaign, boot.generation);
    } else if campaign.active.value.commit == "" {
      UncommittedWritesCleanly(campaign, boot, snapshot, reading);
    } else {
      RecordedWritesCleanly(campaign, boot, snapshot, reading);
    }
  }

  lemma MarkWritesCleanly(campaign: Campaign, boot: Boot, marker: Marker, reading: Reading)
    requires campaign.active.Some? ==> Fresh(campaign.active.value)
    ensures CleanWrite(campaign, boot.generation, MarkVerified(campaign, boot, marker, reading))
  {
  }
}
