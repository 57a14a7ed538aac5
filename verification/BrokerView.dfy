/** What a broker's callers can tell of its map, and what each call makes of it. */
module BrokerView {
  const CAPACITY := 2

  datatype Held = Held(actor: string, hash: string, claimed: bool, canceled: bool)

  type View = map<string, Held>

  /** Calls of a broker, and the end of a held session's context. */
  datatype Call =
    | NoCall
    | Reserve(id: string, actor: string, hash: string)
    | SetPlan(id: string, hash: string)
    | Claim(id: string, hash: string)
    | Cancel(id: string)
    | Remove(id: string)

  predicate Admits(v: View, actor: string) {
    |v| < CAPACITY && forall i :: i in v ==> v[i].actor != actor
  }

  predicate Claimable(v: View, id: string, hash: string) {
    id in v && !v[id].claimed && v[id].hash == hash && !v[id].canceled
  }

  /** The view in which a session has not been claimed yet. */
  function Unclaimed(v: View, id: string): (r: View) {
    if id in v then v[id := v[id].(claimed := false)] else v
  }

  predicate Accepts(v: View, call: Call) {
    match call
    case Reserve(_, actor, _) => Admits(v, actor)
    case SetPlan(id, _) => id in v
    case Claim(id, hash) => Claimable(v, id, hash)
    case Remove(id) => id in v
    case _ => true
  }

  function Effect(v: View, call: Call): (r: View)
    requires Accepts(v, call)
  {
    match call
    case NoCall => v
    case Reserve(id, actor, hash) => v[id := Held(actor, hash, false, false)]
    case SetPlan(id, hash) => v[id := v[id].(hash := hash)]
    case Claim(id, _) => v[id := v[id].(claimed := true)]
    case Cancel(id) => if id in v then v[id := v[id].(canceled := true)] else v
    case Remove(id) => v - {id}
  }

  // --- Sessions in a list, shown by a map ------------------------------------------------------------------------------

  /** One session ever reserved, as far as a broker is concerned. */
  datatype Row = Row(id: string, present: bool, held: Held)

  function Present(rows: seq<Row>): (at: set<nat>) {
    set i: nat | i < |rows| && rows[i].present
  }

  ghost predicate At(rows: seq<Row>, i: int, id: string) {
    0 <= i < |rows| && rows[i].present && rows[i].id == id
  }

  ghost predicate Listed(v: View, rows: seq<Row>) {
    forall i :: 0 <= i < |rows| && rows[i].present ==> rows[i].id in v && v[rows[i].id] == rows[i].held
  }

  ghost predicate Sourced(v: View, rows: seq<Row>) {
    forall id :: id in v ==> exists i :: At(rows, i, id)
  }

  /** The map holds exactly the rows that are present, under their identifiers and as they are. */
  ghost predicate Shows(v: View, rows: seq<Row>) {
    Listed(v, rows) && Sourced(v, rows) && |v| == |Present(rows)|
  }

  /** Rows that are present have identifiers of their own. */
  ghost predicate Apart(rows: seq<Row>) {
    forall i, j :: 0 <= i < j < |rows| && rows[i].present && rows[j].present ==> rows[i].id != rows[j].id
  }

  /** A row that is present changes. */
  lemma UpdateShows(v: View, rows: seq<Row>, at: nat, held: Held)
    requires Shows(v, rows) && Apart(rows) && at < |rows| && rows[at].present
    ensures Shows(v[rows[at].id := held], rows[at := rows[at].(held := held)])
  {
    var rows', v' := rows[at := rows[at].(held := held)], v[rows[at].id := held];
    assert Present(rows') == Present(rows) && v'.Keys == v.Keys;
    assert Sourced(v', rows') by {
      forall k | k in v' ensures exists i :: At(rows', i, k) {
        var i :| At(rows, i, k);
        assert At(rows', i, k);
      }
    }
    assert Listed(v', rows') by {
      forall i | 0 <= i < |rows'| && rows'[i].present ensures rows'[i].id in v' && v'[rows'[i].id] == rows'[i].held {
        if i != at { assert rows'[i] == rows[i] && rows[i].id != rows[at].id; }
      }
    }
  }

  /** A row that is not present changes and stays so. */
  lemma AbsentShows(v: View, rows: seq<Row>, at: nat, row: Row)
    requires Shows(v, rows) && at < |rows| && !rows[at].present && !row.present
    ensures Shows(v, rows[at := row])
  {
    var rows' := rows[at := row];
    assert Present(rows') == Present(rows);
    forall k | k in v ensures exists i :: At(rows', i, k) {
      var i :| At(rows, i, k);
      assert At(rows', i, k);
    }
  }

  /** A row that was present goes. */
  lemma RemoveShows(v: View, rows: seq<Row>, at: nat, row: Row)
    requires Shows(v, rows) && Apart(rows) && at < |rows| && rows[at].present && !row.present
    ensures Shows(v - {rows[at].id}, rows[at := row])
  {
    var id := rows[at].id;
    var rows', v' := rows[at := row], v - {id};
    assert Present(rows') == Present(rows) - {at};
    assert v'.Keys == v.Keys - {id};
    forall k | k in v' ensures exists i :: At(rows', i, k) {
      var i :| At(rows, i, k);
      assert At(rows', i, k);
    }
    forall i | 0 <= i < |rows'| && rows'[i].present ensures rows'[i].id in v' && v'[rows'[i].id] == rows'[i].held {
      assert rows'[i] == rows[i] && rows[i].id != id;
    }
  }

  lemma OneMorePresent(rows: seq<Row>, row: Row)
    requires row.present
    ensures |Present(rows + [row])| == |Present(rows)| + 1
  {
    var before, after := Present(rows), Present(rows + [row]);
    forall i: nat ensures i in after <==> i in before || i == |rows| {
      if i < |rows| { assert (rows + [row])[i] == rows[i]; }
    }
    assert after == before + {|rows|} && |rows| !in before;
  }

  lemma OneMoreHeld(v: View, id: string, held: Held)
    requires id !in v
    ensures |v[id := held]| == |v| + 1
  {
    assert v[id := held].Keys == v.Keys + {id};
  }

  lemma AppendSourced(v: View, rows: seq<Row>, id: string, row: Row)
    requires Sourced(v, rows) && row.present && row.id == id
    ensures Sourced(v[id := row.held], rows + [row])
  {
    var rows', v' := rows + [row], v[id := row.held];
    forall k | k in v' ensures exists i :: At(rows', i, k) {
      if k == id {
        assert At(rows', |rows|, k);
      } else {
        var i :| At(rows, i, k);
        assert At(rows', i, k);
      }
    }
  }

  /** A new row under an identifier that is not held. */
  lemma AppendShows(v: View, rows: seq<Row>, id: string, held: Held)
    requires Shows(v, rows) && id !in v
    ensures Shows(v[id := held], rows + [Row(id, true, held)])
  {
    OneMorePresent(rows, Row(id, true, held));
    OneMoreHeld(v, id, held);
    AppendSourced(v, rows, id, Row(id, true, held));
  }

  /** What an action does to the row of its own session. */
  ghost predicate Effected(r: Row, call: Call, r': Row) {
    && r'.id == r.id
    && match call {
         case SetPlan(id, hash) => id == r.id && r.present && r' == r.(held := r.held.(hash := hash))
         case Claim(id, hash) =>
           && id == r.id && r.present && r' == r.(held := r.held.(claimed := true))
           && !r.held.claimed && r.held.hash == hash && !r.held.canceled
         case Remove(id) => id == r.id && r.present && !r'.present
         case Cancel(id) => id == r.id && r.present && r' == r.(held := r.held.(canceled := true))
         case NoCall => r' == r || (!r.present && !r'.present)
         case Reserve(_, _, _) => false
       }
  }

  /** The map follows a change of one row that amounts to a call. */
  lemma RowFollows(v: View, rows: seq<Row>, at: nat, call: Call, r': Row)
    requires Shows(v, rows) && Apart(rows) && at < |rows| && Effected(rows[at], call, r')
    ensures Accepts(v, call) && Shows(Effect(v, call), rows[at := r'])
  {
    var r := rows[at];
    if call.Remove? {
      RemoveShows(v, rows, at, r');
    } else if r.present {
      UpdateShows(v, rows, at, r'.held);
      assert r' == r.(held := r'.held);
      if call.NoCall? { assert v[r.id := r.held] == v; }
    } else {
      AbsentShows(v, rows, at, r');
    }
  }

  /** Whom the map admits, said of the rows. */
  lemma AdmitsShown(v: View, rows: seq<Row>, actor: string)
    requires Shows(v, rows)
    ensures Admits(v, actor) <==>
            |Present(rows)| < CAPACITY && forall i :: 0 <= i < |rows| && rows[i].present ==> rows[i].held.actor != actor
  {
    if Admits(v, actor) {
      forall i | 0 <= i < |rows| && rows[i].present ensures rows[i].held.actor != actor {
        assert v[rows[i].id] == rows[i].held;
      }
    }
    if forall i :: 0 <= i < |rows| && rows[i].present ==> rows[i].held.actor != actor {
      forall k | k in v ensures v[k].actor != actor {
        var i :| At(rows, i, k);
      }
    }
  }

  // --- Runs of calls -------------------------------------------------------------------------------------------------------

  datatype Outcome = Served(v: View) | Refused

  /** The map after a series of calls from the empty one, if each was accepted in its turn. */
  function Serve(calls: seq<Call>): (r: Outcome)
    decreases |calls|
  {
    if calls == [] then Served(map[]) else
    match Serve(calls[..|calls| - 1])
    case Refused => Refused
    case Served(v) => if Accepts(v, calls[|calls| - 1]) then Served(Effect(v, calls[|calls| - 1])) else Refused
  }

  lemma ServeOne(calls: seq<Call>, call: Call)
    requires Serve(calls).Served? && Accepts(Serve(calls).v, call)
    ensures Serve(calls + [call]) == Served(Effect(Serve(calls).v, call))
  {
    assert (calls + [call])[..|calls|] == calls;
  }
}
