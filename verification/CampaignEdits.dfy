/** The campaign as the booting worker edits it: one mapping changed field by field in the
    locked section, and written back when the edit says so. */
module CampaignEdits {
  import opened Options
  import opened RestartDecisions

  class CampaignCopy {
    const id: string
    const running: bool
    const stopIntent: bool
    var stamp: string
    var active: Option<Tx>
    var absorbedDone: nat
    var history: seq<Tx>

    function Value(): Campaign
      reads this
    {
      Campaign(id, running, stopIntent, stamp, active, absorbedDone, history)
    }

    constructor (campaign: Campaign)
      ensures Value() == campaign
    {
      id, running, stopIntent := campaign.id, campaign.running, campaign.stopIntent;
      stamp, active := campaign.stamp, campaign.active;
      absorbedDone, history := campaign.absorbedDone, campaign.history;
    }

    /** Scan for the id, append unless it is there, keep the newest entries. */
    method AppendUniqueTransaction(tx: Tx)
      modifies this`history
      ensures history == AppendUnique(old(history), tx)
    {
      var known := false;
      var i := 0;
      while i < |history| && tx.id != "" && !known
        invariant 0 <= i <= |history|
        invariant known ==> tx.id != "" && Recorded(history, tx.id)
        invariant !known && tx.id != "" ==> forall k :: 0 <= k < i ==> history[k].id != tx.id
      {
        known := history[i].id == tx.id;
        i := i + 1;
      }
      if !known { history := history + [tx]; }
      history := LastOf(history, HISTORY_LIMIT);
    }

    method CloseAbsorbed(tx: Tx) returns (closed: Tx)
      modifies this
      ensures (Value(), closed) == Absorb(old(Value()), tx)
    {
      closed := tx.(restartVerified := true, outcome := Absorbed);
      if !tx.counted {
        absorbedDone := absorbedDone + 1;
        closed := closed.(counted := true);
      }
      AppendUniqueTransaction(closed);
      active := None;
    }

    method KeepOpen(tx: Tx)
      modifies this`active
      ensures active == Some(tx.(restartVerified := false))
    {
      active := Some(tx.(restartVerified := false));
    }

    /** The edit of a worker that found no marker. The copy reaches the file only when `write`. */
    method ReconcileDangling(boot: Boot, snapshot: Snapshot, reading: Reading) returns (write: bool, closed: Option<Tx>)
      modifies this
      ensures var decision := Reconcile(old(Value()), boot, snapshot, reading);
        && write == decision.write.Some? && closed == decision.closes
        && (write ==> Value() == decision.write.value)
    {
      write, closed := false, None;
      if !reading.stopClear || stopIntent || !running { return; }
      if boot.generation != "" && stamp == boot.generation { return; }
      var expected, reachable := snapshot.commit, snapshot.reachable;
      if active.Some? && active.value.commit == "" && !active.value.restartVerified {
        if reading.intentAtHead != "" {
          active := Some(Adopted(Value(), active.value, reading.intentAtHead));
          expected, reachable := reading.intentAtHead, true;
        } else if reading.intentInCandidate != "" {
          active := Some(Adopted(Value(), active.value, reading.intentInCandidate));
          if boot.generation != "" { stamp := boot.generation; }
          write := true;
          return;
        }
      }
      if active.None? || active.value.commit == "" || active.value.restartVerified || active.value.commit != expected {
        write := boot.generation != "";
        if write { stamp := boot.generation; }
        return;
      }
      var tx := active.value;
      write := true;
      stamp := boot.generation;
      if AuthorityFails(Value(), tx, NoClaim, false, reading.nativeFailed) {
        KeepOpen(tx);
        return;
      }
      var held := if tx.taskId == snapshot.taskId then snapshot.held else None;
      if !reachable && held != Some(false) {
        KeepOpen(tx);
      } else if reachable {
        var absorbed := CloseAbsorbed(tx);
        closed := Some(absorbed);
      } else {
        var abandoned := tx.(restartVerified := false, outcome := Abandoned);
        AppendUniqueTransaction(abandoned);
        active := None;
        closed := Some(abandoned);
      }
    }

    /** The edit of the worker that holds the marker. */
    method MarkRestartVerified(boot: Boot, marker: Marker, reading: Reading)
      returns (write: bool, closed: Option<Tx>, durable: bool)
      modifies this
      ensures var decision := MarkVerified(old(Value()), boot, marker, reading);
        && write == decision.write.Some? && closed == decision.closes && durable == decision.durable
        && (write ==> Value() == decision.write.value)
    {
      write, closed, durable := false, None, true;
      if active.None? || !reading.stopClear || stopIntent || !running { return; }
      var prior, tx := stamp, active.value;
      if AuthorityFails(Value(), tx, ClaimOf(marker), true, reading.nativeFailed) {
        if boot.generation != "" { stamp := boot.generation; }
        KeepOpen(tx);
        write := true;
        return;
      }
      if ClaimOf(marker).Claim? && boot.generation != "" && prior == boot.generation {
        durable := false;
        return;
      }
      if boot.generation != "" { stamp := boot.generation; }
      write := true;
      if tx.commit != "" && (marker.Unreadable? || tx.commit != marker.expected) {
        KeepOpen(tx);
      } else if !ShaOk(marker, boot) {
        KeepOpen(tx);
      } else if tx.commit != "" {
        var absorbed := CloseAbsorbed(tx);
        closed := Some(absorbed);
      } else {
        var idle := tx.(restartVerified := true);
        AppendUniqueTransaction(idle);
        active := None;
        closed := Some(idle);
      }
    }
  }
}
