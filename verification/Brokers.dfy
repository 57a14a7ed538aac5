/**
 The in-memory brokers as the objects they are: a map of sessions, updated under a mutex one call at a
 time. The two download brokers are the same type; the upload broker also refuses a stage it holds.
 */
module Brokers {
  import opened Common
  import opened Pipes
  import opened BrokerView

  /** Both ends have been closed with an error: signalled, never at end of input, and earlier errors kept. */
  ghost predicate Torn(before: Pipe, after: Pipe) {
    && after.done && ReadError(after) != Eof
    && (before.rerr.Some? ==> after.rerr == before.rerr)
    && (before.werr.Some? ==> after.werr == before.werr)
  }

  lemma TornDown(p: Pipe)
    ensures Torn(p, ApplyAll(ApplyAll(p, [StoreRead(Canceled), Signal]), [StoreWrite(Canceled), Signal]))
  {
    assert [StoreRead(Canceled), Signal][1..] == [Signal];
    assert [StoreWrite(Canceled), Signal][1..] == [Signal];
  }

  // What the brokers share: a map of sessions, each of some actor.

  /** Different objects of different actors. */
  ghost predicate Distinct<T>(sessions: map<string, T>, actorOf: T -> string) {
    forall i, j :: i in sessions && j in sessions && i != j ==>
      sessions[i] != sessions[j] && actorOf(sessions[i]) != actorOf(sessions[j])
  }

  lemma StaysDistinct<T>(sessions: map<string, T>, actorOf: T -> string, id: string, s: T)
    requires Distinct(sessions, actorOf) && s !in sessions.Values
    requires forall i :: i in sessions ==> actorOf(sessions[i]) != actorOf(s)
    ensures Distinct(sessions[id := s], actorOf)
  {
    assert forall i :: i in sessions ==> sessions[i] in sessions.Values;
  }

  lemma AtMostOneMore<T>(sessions: map<string, T>, id: string, s: T)
    ensures |sessions[id := s]| <= |sessions| + 1
  {
    assert sessions[id := s].Keys == sessions.Keys + {id};
    assert |sessions.Keys + {id}| <= |sessions.Keys| + 1;
  }

  method HoldsActor<T>(sessions: map<string, T>, actorOf: T -> string, actor: string) returns (found: bool)
    ensures found <==> exists i :: i in sessions && actorOf(sessions[i]) == actor
  {
    var left := sessions.Keys;
    while left != {}
      invariant left <= sessions.Keys
      invariant forall i :: i in sessions && actorOf(sessions[i]) == actor ==> i in left
    {
      var i :| i in left;
      if actorOf(sessions[i]) == actor {
        return true;
      }
      left := left - {i};
    }
    return false;
  }

  /** The map as a view knows it: the same identifiers, for sessions of the same actors. */
  ghost predicate SameActors<T>(sessions: map<string, T>, actorOf: T -> string, v: View) {
    v.Keys == sessions.Keys && forall i :: i in sessions ==> v[i].actor == actorOf(sessions[i])
  }

  /** The admission rule. */
  method HasRoom<T>(sessions: map<string, T>, actorOf: T -> string, actor: string, ghost v: View) returns (ok: bool)
    requires SameActors(sessions, actorOf, v)
    ensures ok <==> Admits(v, actor)
    ensures ok <==> |sessions| < CAPACITY && forall i :: i in sessions ==> actorOf(sessions[i]) != actor
  {
    assert |sessions.Keys| == |v.Keys|;
    if |sessions| >= CAPACITY {
      return false;
    }
    var found := HoldsActor(sessions, actorOf, actor);
    return !found;
  }

  /** Every session held before is still held under its identifier. */
  ghost predicate Keeps<T>(before: map<string, T>, after: map<string, T>) {
    forall i :: i in before ==> i in after && after[i] == before[i]
  }

  lemma KeepsIffNew<T>(before: map<string, T>, id: string, s: T)
    requires id in before ==> before[id] != s
    ensures Keeps(before, before[id := s]) <==> id !in before
  {
  }

  class DownloadSession {
    const actor: string
    var planHash: string
    var canceled: bool
    var claimed: bool
    var success: bool
    var done: bool
    var pipe: Pipe

    constructor (actor: string)
      ensures this.actor == actor && planHash == "" && pipe == OPEN
      ensures !canceled && !claimed && !success && !done
    {
      this.actor := actor;
      planHash, pipe := "", OPEN;
      canceled, claimed, success, done := false, false, false, false;
    }

    ghost function Seen(): (h: Held)
      reads this
    {
      Held(actor, planHash, claimed, canceled)
    }

    /** Records the verdict, closes `done`, cancels the context and closes both pipe ends. */
    method TearDown(success: bool)
      modifies this
      ensures this.success == success && done && canceled && claimed == old(claimed) && planHash == old(planHash)
      ensures Torn(old(pipe), pipe)
    {
      TornDown(pipe);
      this.success, done := success, true;
      canceled := true;
      pipe := ApplyAll(pipe, [StoreRead(Canceled), Signal]);
      pipe := ApplyAll(pipe, [StoreWrite(Canceled), Signal]);
    }
  }

  function DownloadActor(s: DownloadSession): (actor: string) {
    s.actor
  }

  class DownloadBroker {
    var sessions: map<string, DownloadSession>

    /** At most two sessions, all different objects of different actors, none of them finished. */
    ghost predicate Valid()
      reads this, sessions.Values
    {
      && |sessions| <= CAPACITY
      && Distinct(sessions, DownloadActor)
      && (forall i :: i in sessions ==> !sessions[i].done)
    }

    ghost function Seen(): (v: View)
      reads this, sessions.Values
    {
      map i | i in sessions :: sessions[i].Seen()
    }

    constructor ()
      ensures Valid() && sessions == map[]
    {
      sessions := map[];
    }

    method MayReserve(actor: string) returns (ok: bool)
      ensures ok <==> Admits(Seen(), actor)
      ensures ok ==> |sessions| < CAPACITY && forall i :: i in sessions ==> sessions[i].actor != actor
    {
      ok := HasRoom(sessions, DownloadActor, actor, Seen());
    }

    method Put(id: string, s: DownloadSession)
      requires Valid() && s !in sessions.Values && !s.done
      requires |sessions| < CAPACITY && forall i :: i in sessions ==> sessions[i].actor != s.actor
      modifies this
      ensures Valid() && sessions == old(sessions)[id := s] && Seen() == old(Seen())[id := s.Seen()]
    {
      StaysDistinct(sessions, DownloadActor, id, s);
      AtMostOneMore(sessions, id, s);
      sessions := sessions[id := s];
    }

    /** A new session under an identifier. */
    method Add(id: string, actor: string) returns (s: DownloadSession)
      requires Valid() && |sessions| < CAPACITY && forall i :: i in sessions ==> sessions[i].actor != actor
      modifies this
      ensures Valid() && fresh(s) && sessions == old(sessions)[id := s] && s.pipe == OPEN
      ensures Seen() == old(Seen())[id := Held(actor, "", false, false)]
      ensures Keeps(old(sessions), sessions) <==> id !in old(sessions)
    {
      s := new DownloadSession(actor);
      KeepsIffNew(sessions, id, s);
      Put(id, s);
    }

    /** An identifier that is already held would lose its session. */
    method Reserve(id: string, actor: string) returns (s: DownloadSession?)
      requires Valid()
      modifies this
      ensures Valid()
      ensures s != null <==> Accepts(old(Seen()), BrokerView.Reserve(id, actor, ""))
      ensures s == null ==> sessions == old(sessions)
      ensures s != null ==> fresh(s) && sessions == old(sessions)[id := s] && s.pipe == OPEN
      ensures s != null ==> Seen() == Effect(old(Seen()), BrokerView.Reserve(id, actor, ""))
      ensures s != null ==> (Keeps(old(sessions), sessions) <==> id !in old(sessions))
    {
      var room := MayReserve(actor);
      if !room {
        return null;
      }
      s := Add(id, actor);
    }

    method Claim(id: string, hash: string) returns (s: DownloadSession?)
      requires Valid()
      modifies sessions.Values
      ensures Valid()
      ensures s != null <==> Accepts(old(Seen()), BrokerView.Claim(id, hash))
      ensures Seen() == if s != null then Effect(old(Seen()), BrokerView.Claim(id, hash)) else old(Seen())
      ensures s != null ==> s == sessions[id] && s.claimed
      ensures forall i :: i in sessions && (s == null || i != id) ==> unchanged(sessions[i])
      ensures s != null ==> s.planHash == old(sessions[id].planHash) && s.canceled == old(sessions[id].canceled) &&
                            s.success == old(sessions[id].success) && s.pipe == old(sessions[id].pipe)
    {
      if id !in sessions || sessions[id].claimed || sessions[id].planHash != hash || sessions[id].canceled {
        return null;
      }
      s := sessions[id];
      s.claimed := true;
    }

    /** Whether the session could be matched under some plan. */
    method Present(id: string) returns (live: bool)
      ensures live <==> exists hash :: Claimable(Unclaimed(Seen(), id), id, hash)
    {
      assert id in sessions && !sessions[id].canceled ==> Claimable(Unclaimed(Seen(), id), id, sessions[id].planHash);
      live := id in sessions && !sessions[id].canceled;
    }

    /** Whether a claim would succeed if there had not been one. */
    method Matches(id: string, hash: string) returns (same: bool)
      ensures same <==> Claimable(Unclaimed(Seen(), id), id, hash)
    {
      same := id in sessions && !sessions[id].canceled && sessions[id].planHash == hash;
    }

    /** The caller's session must still be in the map: the source dereferences it without a check. */
    method SetPlan(id: string, hash: string)
      requires Valid() && id in sessions
      modifies sessions[id]
      ensures Valid() && Seen() == Effect(old(Seen()), BrokerView.SetPlan(id, hash))
      ensures var s := sessions[id];
              s.claimed == old(s.claimed) && s.canceled == old(s.canceled) && s.success == old(s.success) && s.pipe == old(s.pipe)
    {
      sessions[id].planHash := hash;
    }

    lemma NotHeld(id: string)
      requires id !in sessions
      ensures sessions - {id} == sessions && Seen() - {id} == Seen()
    {
    }

    /** Takes a session out of the map. */
    method Take(id: string) returns (s: DownloadSession)
      requires Valid() && id in sessions
      modifies this
      ensures Valid() && sessions == old(sessions) - {id} && Seen() == old(Seen()) - {id}
      ensures s == old(sessions)[id] && forall i :: i in sessions ==> sessions[i] != s
    {
      s := sessions[id];
      sessions := sessions - {id};
    }

    /** Takes a session out, records the verdict, closes `done` once and tears its channels down. */
    method Remove(id: string, success: bool)
      requires Valid()
      modifies this, sessions.Values
      ensures Valid() && sessions == old(sessions) - {id}
      ensures Seen() == old(Seen()) - {id}
      ensures id in old(sessions) ==>
                var s := old(sessions)[id];
                s.success == success && !old(s.done) && s.done && s.canceled && Torn(old(s.pipe), s.pipe)
      ensures forall i :: i in sessions ==> unchanged(sessions[i])
    {
      if id !in sessions {
        NotHeld(id);
        return;
      }
      var s := Take(id);
      ghost var rest := Seen();
      s.TearDown(success);
      assert Seen() == rest;
    }
  }

  class UploadSession {
    const actor: string
    const planHash: string
    var claimed: bool
    var pipe: Pipe

    constructor (actor: string, planHash: string)
      ensures this.actor == actor && this.planHash == planHash && !claimed && pipe == OPEN
    {
      this.actor, this.planHash := actor, planHash;
      claimed, pipe := false, OPEN;
    }

    ghost function Seen(): (h: Held)
      reads this
    {
      Held(actor, planHash, claimed, false)
    }

    /** Closes both pipe ends. */
    method TearDown()
      modifies this
      ensures claimed == old(claimed)
      ensures Torn(old(pipe), pipe)
    {
      TornDown(pipe);
      pipe := ApplyAll(pipe, [StoreRead(Canceled), Signal]);
      pipe := ApplyAll(pipe, [StoreWrite(Canceled), Signal]);
    }
  }

  function UploadActor(s: UploadSession): (actor: string) {
    s.actor
  }

  class UploadBroker {
    var sessions: map<string, UploadSession>

    ghost predicate Valid()
      reads this, sessions.Values
    {
      && |sessions| <= CAPACITY
      && Distinct(sessions, UploadActor)
    }

    ghost function Seen(): (v: View)
      reads this, sessions.Values
    {
      map i | i in sessions :: sessions[i].Seen()
    }

    constructor ()
      ensures Valid() && sessions == map[]
    {
      sessions := map[];
    }

    method MayReserve(actor: string) returns (ok: bool)
      ensures ok <==> Admits(Seen(), actor)
      ensures ok ==> |sessions| < CAPACITY && forall i :: i in sessions ==> sessions[i].actor != actor
    {
      ok := HasRoom(sessions, UploadActor, actor, Seen());
    }

    method Put(stage: string, s: UploadSession)
      requires Valid() && s !in sessions.Values
      requires |sessions| < CAPACITY && forall i :: i in sessions ==> sessions[i].actor != s.actor
      modifies this
      ensures Valid() && sessions == old(sessions)[stage := s] && Seen() == old(Seen())[stage := s.Seen()]
    {
      StaysDistinct(sessions, UploadActor, stage, s);
      AtMostOneMore(sessions, stage, s);
      sessions := sessions[stage := s];
    }

    method Reserve(stage: string, actor: string, planHash: string) returns (s: UploadSession?)
      requires Valid()
      modifies this
      ensures Valid()
      ensures s != null <==> stage !in old(sessions) && Accepts(old(Seen()), BrokerView.Reserve(stage, actor, planHash))
      ensures s == null ==> sessions == old(sessions)
      ensures s != null ==> fresh(s) && sessions == old(sessions)[stage := s] && s.pipe == OPEN
      ensures s != null ==> Seen() == Effect(old(Seen()), BrokerView.Reserve(stage, actor, planHash))
      ensures s != null ==> Keeps(old(sessions), sessions)
    {
      var room := MayReserve(actor);
      if stage in sessions || !room {
        return null;
      }
      s := new UploadSession(actor, planHash);
      Put(stage, s);
    }

    method Claim(stage: string, hash: string) returns (s: UploadSession?)
      requires Valid()
      modifies sessions.Values
      ensures Valid()
      ensures s != null <==> Accepts(old(Seen()), BrokerView.Claim(stage, hash))
      ensures Seen() == if s != null then Effect(old(Seen()), BrokerView.Claim(stage, hash)) else old(Seen())
      ensures s != null ==> s == sessions[stage] && s.claimed && s.pipe == old(sessions[stage].pipe)
      ensures forall i :: i in sessions && (s == null || i != stage) ==> unchanged(sessions[i])
    {
      if stage !in sessions || sessions[stage].claimed || sessions[stage].planHash != hash {
        return null;
      }
      s := sessions[stage];
      s.claimed := true;
    }

    lemma NotHeld(stage: string)
      requires stage !in sessions
      ensures sessions - {stage} == sessions && Seen() - {stage} == Seen()
    {
    }

    /** Takes a session out of the map. */
    method Take(stage: string) returns (s: UploadSession)
      requires Valid() && stage in sessions
      modifies this
      ensures Valid() && sessions == old(sessions) - {stage} && Seen() == old(Seen()) - {stage}
      ensures s == old(sessions)[stage] && forall i :: i in sessions ==> sessions[i] != s
    {
      s := sessions[stage];
      sessions := sessions - {stage};
    }

    method Remove(stage: string)
      requires Valid()
      modifies this, sessions.Values
      ensures Valid() && sessions == old(sessions) - {stage}
      ensures Seen() == old(Seen()) - {stage}
      ensures stage in old(sessions) ==>
                var s := old(sessions)[stage];
                Torn(old(s.pipe), s.pipe) && s.claimed == old(s.claimed)
      ensures forall i :: i in sessions ==> unchanged(sessions[i])
    {
      if stage !in sessions {
        NotHeld(stage);
        return;
      }
      var s := Take(stage);
      ghost var rest := Seen();
      s.TearDown();
      assert Seen() == rest;
    }
  }
}
