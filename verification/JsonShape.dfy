/**
 The shape checker for build configurations: a recursive walk over a JSON decoder's tokens that admits
 bounded nesting, no null, and object keys that are ASCII and distinct whatever their case.
 */
module JsonShape {
  import opened Common
  import opened Text

  const MAX_DEPTH := 32

  datatype Value =
    | Null
    | Boolean(b: bool)
    | Number(digits: string)
    | Text(s: string)
    | Array(items: seq<Value>)
    | Object(members: seq<Member>)

  datatype Member = Member(key: string, value: Value)

  /** Tokens as the decoder delivers them; commas and colons are its own business. */
  datatype Token =
    | OpenObject | CloseObject | OpenArray | CloseArray
    | TextToken(s: string) | NumberToken(digits: string) | BooleanToken(b: bool) | NullToken

  // --- Printing -----------------------------------------------------------------------------------------------

  function Print(v: Value): (ts: seq<Token>)
    ensures |ts| >= 1
    decreases v, 1
  {
    match v
    case Null => [NullToken]
    case Array(items) => [OpenArray] + PrintItems(items) + [CloseArray]
    case Object(members) => [OpenObject] + PrintMembers(members) + [CloseObject]
    case Boolean(b) => [BooleanToken(b)]
    case Number(digits) => [NumberToken(digits)]
    case Text(s) => [TextToken(s)]
  }

  function PrintItems(items: seq<Value>): (ts: seq<Token>)
    decreases items, 0
  {
    if items == [] then [] else Print(items[0]) + PrintItems(items[1..])
  }

  function PrintMembers(members: seq<Member>): (ts: seq<Token>)
    decreases members, 0
  {
    if members == [] then []
    else [TextToken(members[0].key)] + Print(members[0].value) + PrintMembers(members[1..])
  }

  // --- What is admitted ----------------------------------------------------------------------------------------

  /** Nested values stay within the depth bound, none is null, and keys are ASCII and distinct when lower-cased. */
  predicate Admissible(v: Value, depth: nat)
    decreases v, 1
  {
    && depth <= MAX_DEPTH
    && match v {
         case Null => false
         case Array(items) => forall x :: x in items ==> Admissible(x, depth + 1)
         case Object(members) =>
           && (forall m :: m in members ==> IsAscii(m.key) && Admissible(m.value, depth + 1))
           && (forall i, j :: 0 <= i < j < |members| ==> Lower(members[i].key) != Lower(members[j].key))
         case _ => true
       }
  }

  // --- The checker -------------------------------------------------------------------------------------------------

  predicate More(ts: seq<Token>) {
    ts != [] && !ts[0].CloseObject? && !ts[0].CloseArray?
  }

  /** The tokens left after one admitted value, or `None` on any error. */
  function Check(ts: seq<Token>, depth: nat): (rest: Option<seq<Token>>)
    ensures rest.Some? ==> |rest.value| < |ts|
    decreases |ts|, 0
  {
    if depth > MAX_DEPTH || ts == [] then None else
    match ts[0]
    case NullToken | CloseObject | CloseArray => None
    case OpenObject =>
      (match CheckMembers(ts[1..], depth, {})
       case None => None
       case Some(r) => if r != [] && r[0].CloseObject? then Some(r[1..]) else None)
    case OpenArray =>
      (match CheckItems(ts[1..], depth)
       case None => None
       case Some(r) => if r != [] && r[0].CloseArray? then Some(r[1..]) else None)
    case _ => Some(ts[1..])
  }

  function CheckItems(ts: seq<Token>, depth: nat): (rest: Option<seq<Token>>)
    ensures rest.Some? ==> |rest.value| <= |ts|
    decreases |ts|, 1
  {
    if !More(ts) then Some(ts) else
    match Check(ts, depth + 1)
    case None => None
    case Some(r) => CheckItems(r, depth)
  }

  function CheckMembers(ts: seq<Token>, depth: nat, seen: set<string>): (rest: Option<seq<Token>>)
    ensures rest.Some? ==> |rest.value| <= |ts|
    decreases |ts|, 1
  {
    if !More(ts) then Some(ts)
    else if !ts[0].TextToken? || Lower(ts[0].s) in seen || !IsAscii(ts[0].s) then None
    else
      match Check(ts[1..], depth + 1)
      case None => None
      case Some(r) => CheckMembers(r, depth, seen + {Lower(ts[0].s)})
  }

  class Decoder {
    var rest: seq<Token>

    constructor (tokens: seq<Token>)
      ensures rest == tokens
    {
      rest := tokens;
    }

    method Token() returns (t: Option<Token>)
      modifies this
      ensures old(rest) == [] ==> t == None && rest == []
      ensures old(rest) != [] ==> t == Some(old(rest)[0]) && rest == old(rest)[1..]
    {
      if rest == [] {
        return None;
      }
      t := Some(rest[0]);
      rest := rest[1..];
    }

    method CheckValue(depth: nat) returns (ok: bool)
      modifies this
      ensures ok <==> Check(old(rest), depth).Some?
      ensures ok ==> rest == Check(old(rest), depth).value
      decreases |rest|
    {
      ghost var start := rest;
      if depth > MAX_DEPTH {
        return false;
      }
      var token := Token();
      if token == None || token.value.NullToken? {
        return false;
      }
      match token.value
      case OpenObject =>
        var seen: set<string> := {};
        while More(rest)
          invariant |rest| < |start|
          invariant CheckMembers(start[1..], depth, {}) == CheckMembers(rest, depth, seen)
          decreases |rest|
        {
          ghost var here := rest;
          var key := Token();
          if !key.value.TextToken? || Lower(key.value.s) in seen || !IsAscii(key.value.s) {
            return false;
          }
          seen := seen + {Lower(key.value.s)};
          ok := CheckValue(depth + 1);
          if !ok {
            return false;
          }
        }
        var close := Token();
        return close != None && close.value.CloseObject?;
      case OpenArray =>
        while More(rest)
          invariant |rest| < |start|
          invariant CheckItems(start[1..], depth) == CheckItems(rest, depth)
          decreases |rest|
        {
          ok := CheckValue(depth + 1);
          if !ok {
            return false;
          }
        }
        var close := Token();
        return close != None && close.value.CloseArray?;
      case CloseObject =>
        return false;
      case CloseArray =>
        return false;
      case _ =>
        return true;
    }

    /** The whole document: one admitted value and then the end of the input. */
    method CheckDocument() returns (ok: bool)
      modifies this
      ensures ok <==> Check(old(rest), 0) == Some([])
    {
      ok := CheckValue(0);
      if ok {
        var extra := Token();
        ok := extra == None;
      }
    }
  }

  // --- Both directions ------------------------------------------------------------------------------------------------

  ghost predicate MembersAdmissible(members: seq<Member>, depth: nat, seen: set<string>) {
    && (forall m :: m in members ==> IsAscii(m.key) && Admissible(m.value, depth + 1) && Lower(m.key) !in seen)
    && (forall i, j :: 0 <= i < j < |members| ==> Lower(members[i].key) != Lower(members[j].key))
  }

  lemma MembersJoin(first: Member, rest: seq<Member>, depth: nat, seen: set<string>)
    requires IsAscii(first.key) && Admissible(first.value, depth + 1) && Lower(first.key) !in seen
    requires MembersAdmissible(rest, depth, seen + {Lower(first.key)})
    ensures MembersAdmissible([first] + rest, depth, seen)
  {
    var members := [first] + rest;
    forall i, j | 0 <= i < j < |members| ensures Lower(members[i].key) != Lower(members[j].key) {
      assert members[j] == rest[j - 1];
      if i > 0 { assert members[i] == rest[i - 1]; }
    }
  }

  lemma MembersTail(first: Member, rest: seq<Member>, depth: nat, seen: set<string>)
    requires MembersAdmissible([first] + rest, depth, seen)
    ensures IsAscii(first.key) && Admissible(first.value, depth + 1) && Lower(first.key) !in seen
    ensures MembersAdmissible(rest, depth, seen + {Lower(first.key)})
  {
    var members := [first] + rest;
    assert members[0] == first;
    forall m | m in rest ensures m in members && Lower(m.key) !in seen + {Lower(first.key)} {
      var j :| 0 <= j < |rest| && rest[j] == m;
      assert members[j + 1] == m;
    }
    forall i, j | 0 <= i < j < |rest| ensures Lower(rest[i].key) != Lower(rest[j].key) {
      assert members[i + 1] == rest[i] && members[j + 1] == rest[j];
    }
  }

  lemma MembersSplit(members: seq<Member>, depth: nat, seen: set<string>)
    requires members != []
    ensures MembersAdmissible(members, depth, seen) <==>
            && IsAscii(members[0].key) && Admissible(members[0].value, depth + 1) && Lower(members[0].key) !in seen
            && MembersAdmissible(members[1..], depth, seen + {Lower(members[0].key)})
  {
    var first, rest := members[0], members[1..];
    assert members == [first] + rest;
    if MembersAdmissible(members, depth, seen) {
      MembersTail(first, rest, depth, seen);
    } else if && IsAscii(first.key) && Admissible(first.value, depth + 1) && Lower(first.key) !in seen
              && MembersAdmissible(rest, depth, seen + {Lower(first.key)}) {
      MembersJoin(first, rest, depth, seen);
    }
  }

  // How the tokens of a printed value fall apart, one layer at a time.

  lemma ObjectTokens(members: seq<Member>, rest: seq<Token>)
    ensures Print(Object(members)) + rest == [OpenObject] + (PrintMembers(members) + ([CloseObject] + rest))
  {
  }

  lemma ArrayTokens(items: seq<Value>, rest: seq<Token>)
    ensures Print(Array(items)) + rest == [OpenArray] + (PrintItems(items) + ([CloseArray] + rest))
  {
  }

  lemma ItemTokens(first: Value, tail: seq<Value>, rest: seq<Token>)
    ensures PrintItems([first] + tail) + rest == Print(first) + (PrintItems(tail) + rest)
  {
    assert ([first] + tail)[1..] == tail;
    Assoc(Print(first), PrintItems(tail), rest);
  }

  lemma MemberTokens(first: Member, tail: seq<Member>, rest: seq<Token>)
    ensures PrintMembers([first] + tail) + rest == [TextToken(first.key)] + (Print(first.value) + (PrintMembers(tail) + rest))
  {
    assert ([first] + tail)[1..] == tail;
    Assoc([TextToken(first.key)], Print(first.value), PrintMembers(tail));
    Assoc([TextToken(first.key)], Print(first.value) + PrintMembers(tail), rest);
    Assoc(Print(first.value), PrintMembers(tail), rest);
  }

  // What the checker does with one layer.

  lemma ObjectStep(body: seq<Token>, depth: nat)
    ensures Check([OpenObject] + body, depth) ==
            (if depth > MAX_DEPTH then None else
             match CheckMembers(body, depth, {})
             case None => None
             case Some(r) => if r != [] && r[0].CloseObject? then Some(r[1..]) else None)
  {
    assert ([OpenObject] + body)[1..] == body;
  }

  lemma ArrayStep(body: seq<Token>, depth: nat)
    ensures Check([OpenArray] + body, depth) ==
            (if depth > MAX_DEPTH then None else
             match CheckItems(body, depth)
             case None => None
             case Some(r) => if r != [] && r[0].CloseArray? then Some(r[1..]) else None)
  {
    assert ([OpenArray] + body)[1..] == body;
  }

  lemma ItemStep(first: Value, body: seq<Token>, depth: nat)
    ensures CheckItems(Print(first) + body, depth) ==
            (match Check(Print(first) + body, depth + 1) case None => None case Some(r) => CheckItems(r, depth))
  {
    StartsValue(first);
    assert (Print(first) + body)[0] == Print(first)[0];
  }

  lemma MemberStep(key: string, body: seq<Token>, depth: nat, seen: set<string>)
    ensures CheckMembers([TextToken(key)] + body, depth, seen) ==
            (if Lower(key) in seen || !IsAscii(key) then None else
             match Check(body, depth + 1) case None => None case Some(r) => CheckMembers(r, depth, seen + {Lower(key)}))
  {
    assert ([TextToken(key)] + body)[1..] == body;
  }

  /** On a printed value the checker consumes exactly its tokens if the value is admissible, and fails otherwise. */
  lemma {:induction false} CheckPrinted(v: Value, depth: nat, rest: seq<Token>)
    ensures Check(Print(v) + rest, depth) == (if Admissible(v, depth) then Some(rest) else None)
    decreases v, 1
  {
    match v
    case Array(items) =>
      ArrayTokens(items, rest);
      ArrayStep(PrintItems(items) + ([CloseArray] + rest), depth);
      CheckPrintedItems(items, depth, [CloseArray] + rest);
      assert ([CloseArray] + rest)[1..] == rest;
    case Object(members) =>
      ObjectTokens(members, rest);
      ObjectStep(PrintMembers(members) + ([CloseObject] + rest), depth);
      CheckPrintedMembers(members, depth, {}, [CloseObject] + rest);
      assert ([CloseObject] + rest)[1..] == rest;
    case _ =>
      assert (Print(v) + rest)[1..] == rest;
  }

  lemma {:induction false} CheckPrintedItems(items: seq<Value>, depth: nat, rest: seq<Token>)
    requires !More(rest)
    ensures CheckItems(PrintItems(items) + rest, depth) ==
            (if forall x :: x in items ==> Admissible(x, depth + 1) then Some(rest) else None)
    decreases items, 0
  {
    if items == [] {
      assert PrintItems(items) + rest == rest;
    } else {
      var first, tail := items[0], items[1..];
      assert items == [first] + tail;
      ItemTokens(first, tail, rest);
      ItemStep(first, PrintItems(tail) + rest, depth);
      CheckPrinted(first, depth + 1, PrintItems(tail) + rest);
      CheckPrintedItems(tail, depth, rest);
      ItemsSplit(items, depth);
    }
  }

  lemma ItemsSplit(items: seq<Value>, depth: nat)
    requires items != []
    ensures (forall x :: x in items ==> Admissible(x, depth + 1)) <==>
            Admissible(items[0], depth + 1) && forall x :: x in items[1..] ==> Admissible(x, depth + 1)
  {
    if forall x :: x in items ==> Admissible(x, depth + 1) {
      forall x | x in items[1..] ensures Admissible(x, depth + 1) { assert x in items; }
      assert items[0] in items;
    }
    if Admissible(items[0], depth + 1) && forall x :: x in items[1..] ==> Admissible(x, depth + 1) {
      forall x | x in items ensures Admissible(x, depth + 1) {
        var i :| 0 <= i < |items| && items[i] == x;
        if i > 0 {
          assert items[1..][i - 1] == x;
          assert x in items[1..];
        }
      }
    }
  }

  lemma StartsValue(v: Value)
    ensures More(Print(v))
  {
  }

  lemma {:induction false} CheckPrintedMembers(members: seq<Member>, depth: nat, seen: set<string>, rest: seq<Token>)
    requires !More(rest)
    ensures CheckMembers(PrintMembers(members) + rest, depth, seen) ==
            (if MembersAdmissible(members, depth, seen) then Some(rest) else None)
    decreases members, 0
  {
    if members == [] {
      assert PrintMembers(members) + rest == rest;
    } else {
      var first, tail := members[0], members[1..];
      assert members == [first] + tail;
      MemberTokens(first, tail, rest);
      MemberStep(first.key, Print(first.value) + (PrintMembers(tail) + rest), depth, seen);
      CheckPrinted(first.value, depth + 1, PrintMembers(tail) + rest);
      CheckPrintedMembers(tail, depth, seen + {Lower(first.key)}, rest);
      MembersSplit(members, depth, seen);
    }
  }

  /** Whatever the checker accepts is the printing of an admissible value. */
  lemma {:induction false} AcceptedIsPrinted(ts: seq<Token>, depth: nat) returns (v: Value)
    requires Check(ts, depth).Some?
    ensures Admissible(v, depth) && ts == Print(v) + Check(ts, depth).value
    decreases |ts|, 1
  {
    match ts[0]
    case OpenObject => v := AcceptedObject(ts, depth);
    case OpenArray => v := AcceptedArray(ts, depth);
    case TextToken(s) => v := Text(s);
    case NumberToken(digits) => v := Number(digits);
    case BooleanToken(b) => v := Boolean(b);
  }

  lemma {:induction false} AcceptedObject(ts: seq<Token>, depth: nat) returns (v: Value)
    requires Check(ts, depth).Some? && ts[0] == OpenObject
    ensures Admissible(v, depth) && ts == Print(v) + Check(ts, depth).value
    decreases |ts|, 0
  {
    var body := ts[1..];
    assert ts == [OpenObject] + body;
    ObjectStep(body, depth);
    var members := AcceptedMembers(body, depth, {});
    var r := CheckMembers(body, depth, {}).value;
    assert r == [CloseObject] + r[1..];
    v := Object(members);
    ObjectTokens(members, r[1..]);
    ObjectAdmissible(members, depth);
  }

  lemma ObjectAdmissible(members: seq<Member>, depth: nat)
    requires depth <= MAX_DEPTH && MembersAdmissible(members, depth, {})
    ensures Admissible(Object(members), depth)
  {
  }

  lemma {:induction false} AcceptedArray(ts: seq<Token>, depth: nat) returns (v: Value)
    requires Check(ts, depth).Some? && ts[0] == OpenArray
    ensures Admissible(v, depth) && ts == Print(v) + Check(ts, depth).value
    decreases |ts|, 0
  {
    var body := ts[1..];
    assert ts == [OpenArray] + body;
    ArrayStep(body, depth);
    var items := AcceptedItems(body, depth);
    var r := CheckItems(body, depth).value;
    assert r == [CloseArray] + r[1..];
    v := Array(items);
    ArrayTokens(items, r[1..]);
  }

  lemma {:induction false} AcceptedItems(ts: seq<Token>, depth: nat) returns (items: seq<Value>)
    requires CheckItems(ts, depth).Some?
    ensures forall x :: x in items ==> Admissible(x, depth + 1)
    ensures ts == PrintItems(items) + CheckItems(ts, depth).value
    decreases |ts|, 2
  {
    items := [];
    if More(ts) {
      var first := AcceptedIsPrinted(ts, depth + 1);
      var r := Check(ts, depth + 1).value;
      var tail := AcceptedItems(r, depth);
      items := [first] + tail;
      ItemTokens(first, tail, CheckItems(r, depth).value);
    }
  }

  lemma {:induction false} AcceptedMembers(ts: seq<Token>, depth: nat, seen: set<string>) returns (members: seq<Member>)
    requires CheckMembers(ts, depth, seen).Some?
    ensures MembersAdmissible(members, depth, seen)
    ensures ts == PrintMembers(members) + CheckMembers(ts, depth, seen).value
    decreases |ts|, 2
  {
    members := [];
    if More(ts) {
      var key := ts[0].s;
      var value := AcceptedIsPrinted(ts[1..], depth + 1);
      var r := Check(ts[1..], depth + 1).value;
      var tail := AcceptedMembers(r, depth, seen + {Lower(key)});
      members := [Member(key, value)] + tail;
      assert members[1..] == tail;
      MembersSplit(members, depth, seen);
      MemberTokens(Member(key, value), tail, CheckMembers(r, depth, seen + {Lower(key)}).value);
      assert ts == [TextToken(key)] + ts[1..];
    }
  }

  /** The checker is a parser: it succeeds with `rest` left exactly on the printings of admissible values followed by `rest`. */
  lemma CheckIsParser(ts: seq<Token>, depth: nat, rest: seq<Token>)
    ensures Check(ts, depth) == Some(rest) <==> exists v :: Admissible(v, depth) && ts == Print(v) + rest
  {
    if Check(ts, depth) == Some(rest) {
      var v := AcceptedIsPrinted(ts, depth);
      assert Admissible(v, depth) && ts == Print(v) + rest;
    }
    if exists v :: Admissible(v, depth) && ts == Print(v) + rest {
      var v :| Admissible(v, depth) && ts == Print(v) + rest;
      CheckPrinted(v, depth, rest);
    }
  }
}
