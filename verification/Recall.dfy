/** What the memory recalls for a prompt: whole acknowledged exchanges, and early requests to remember (`living.rs`). */
module Recall {
  import opened Prelude
  import opened Living

  /** The attempt was made to this NPC in this branch. */
  predicate InScope(db: Db, a: nat, camp: string, branch: string, npc: string)
    requires ForeignKeys(db) && a < |db.attempts|
  {
    && PlaceOf(db, a).camp == camp && PlaceOf(db, a).branch == branch
    && db.conversations[db.attempts[a].conversation].npc == npc
  }

  /** The attempts of `order` in scope. */
  function Selected(db: Db, order: seq<nat>, camp: string, branch: string, npc: string): (r: seq<nat>)
    requires ForeignKeys(db) && InTable(db.attempts, order)
    ensures forall a :: a in r <==> a in order && InScope(db, a, camp, branch, npc)
    ensures InTable(db.attempts, r)
  {
    if order == [] then []
    else
      var rest := Selected(db, order[1..], camp, branch, npc);
      assert forall a :: a in order <==> a == order[0] || a in order[1..];
      if InScope(db, order[0], camp, branch, npc) then [order[0]] + rest else rest
  }

  lemma {:induction false} HeardIsSelected(db: Db, order: seq<nat>, camp: string, branch: string, npc: string)
    requires ForeignKeys(db) && InTable(db.attempts, order)
    ensures Heard(db, Rows(db.attempts, order), camp, branch, npc)
      == Rows(db.attempts, Selected(db, order, camp, branch, npc))
  {
    hide InScope, ForeignKeys;
    if order != [] {
      hide Heard;
      HeardIsSelected(db, order[1..], camp, branch, npc);
      HeardOfOne(db, order[0], Rows(db.attempts, order[1..]), camp, branch, npc);
      var selected := Selected(db, order, camp, branch, npc);
      if InScope(db, order[0], camp, branch, npc) {
        assert selected[1..] == Selected(db, order[1..], camp, branch, npc);
      }
    }
  }

  lemma HeardOnce(db: Db, m: Message, rest: seq<Message>, camp: string, branch: string, npc: string)
    requires ForeignKeys(db) && m.attempt < |db.attempts|
    ensures Heard(db, [m] + rest, camp, branch, npc)
         == (if InScope(db, m.attempt, camp, branch, npc) then [m] else []) + Heard(db, rest, camp, branch, npc)
  {
    hide ForeignKeys;
    assert ([m] + rest)[1..] == rest;
  }

  /** What is heard of one exchange, and of what follows. */
  lemma HeardOfOne(db: Db, a: nat, rest: seq<Message>, camp: string, branch: string, npc: string)
    requires ForeignKeys(db) && a < |db.attempts|
    ensures Heard(db, Exchange(db.attempts, a) + rest, camp, branch, npc)
         == (if InScope(db, a, camp, branch, npc) then Exchange(db.attempts, a) else [])
            + Heard(db, rest, camp, branch, npc)
  {
    hide ForeignKeys;
    var exchange := Exchange(db.attempts, a);
    HeardOnce(db, exchange[1], rest, camp, branch, npc);
    HeardOnce(db, exchange[0], [exchange[1]] + rest, camp, branch, npc);
    assert exchange + rest == [exchange[0]] + ([exchange[1]] + rest);
  }

  lemma {:induction false} RowsFrom(attempts: seq<Attempt>, order: seq<nat>, k: nat)
    requires InTable(attempts, order) && k <= |order|
    ensures InTable(attempts, order[k..]) && Rows(attempts, order)[2 * k..] == Rows(attempts, order[k..])
  {
    if k > 0 {
      RowsFrom(attempts, order[1..], k - 1);
      assert order[1..][k - 1..] == order[k..];
      assert Rows(attempts, order)[2 * k..] == Rows(attempts, order[1..])[2 * (k - 1)..];
    } else {
      assert order[0..] == order;
    }
  }

  /** The last six of these, or all of them if there are fewer. */
  function LastSix(order: seq<nat>): (r: seq<nat>)
    ensures forall a :: a in r ==> a in order
  {
    if |order| <= 6 then order else order[|order| - 6..]
  }

  /** The first three of these, or all of them if there are fewer. */
  function FirstThree(order: seq<nat>): (r: seq<nat>)
    ensures forall a :: a in r ==> a in order
  {
    if |order| <= 3 then order else order[..3]
  }

  /**
   * Recent memory is the last six exchanges acknowledged with this NPC in this branch, or all of them if
   * there are fewer: whole, oldest first, each the player's row and then the reply, and nothing else.
   */
  lemma RecentIsWholeExchanges(db: Db, order: seq<nat>, camp: string, branch: string, npc: string)
    requires DbInv(db, order)
    ensures var last := LastSix(Selected(db, order, camp, branch, npc));
      && InTable(db.attempts, last) && Memories(db, camp, branch, npc).recent == Rows(db.attempts, last)
      && forall a :: a in last ==> db.attempts[a].stage.Committed? && InScope(db, a, camp, branch, npc)
  {
    hide Unique, OneActive, Chronological, NoDuplicates, Rows, Heard, Claims, Selected, InScope;
    var selected := Selected(db, order, camp, branch, npc);
    HeardIsSelected(db, order, camp, branch, npc);
    if |selected| > 6 {
      RowsFrom(db.attempts, selected, |selected| - 6);
    }
  }

  // ------------------------------------------------------------------ what is pinned

  /** It begins with "remember" and a space, in letters of any case. */
  predicate BeginsRemember(text: string) {
    |text| >= 9 && forall i :: 0 <= i < 9 ==> text[i] == "remember "[i] || text[i] == "REMEMBER "[i]
  }

  lemma AsksIsBegins(text: string)
    ensures AsksToRemember(text) <==> BeginsRemember(text)
  {
    if |text| >= 9 {
      assert forall i :: 0 <= i < 9 ==>
        (Lower(text[i]) == REMEMBER[i] <==> text[i] == "remember "[i] || text[i] == "REMEMBER "[i]);
    }
  }

  /** The attempts of `order` whose message asks to remember something. */
  function Asking(attempts: seq<Attempt>, order: seq<nat>): (r: seq<nat>)
    requires InTable(attempts, order)
    ensures InTable(attempts, r)
    ensures forall a :: a in r <==> a in order && BeginsRemember(attempts[a].payload.msg)
  {
    if order == [] then []
    else
      assert forall a :: a in order <==> a == order[0] || a in order[1..];
      (if BeginsRemember(attempts[order[0]].payload.msg) then [order[0]] else []) + Asking(attempts, order[1..])
  }

  /** The player's rows of these attempts. */
  function PlayerRows(attempts: seq<Attempt>, order: seq<nat>): seq<Message>
    requires InTable(attempts, order)
  {
    if order == [] then []
    else
      var row := attempts[order[0]];
      [Message(order[0], Player, row.payload.msg, row.day)] + PlayerRows(attempts, order[1..])
  }

  lemma {:induction false} ClaimsAreAsking(attempts: seq<Attempt>, order: seq<nat>)
    requires InTable(attempts, order)
    ensures Claims(Rows(attempts, order)) == PlayerRows(attempts, Asking(attempts, order))
  {
    hide AsksToRemember, BeginsRemember;
    if order != [] {
      AsksIsBegins(attempts[order[0]].payload.msg);
      ClaimsAreAsking(attempts, order[1..]);
      ClaimsOfOne(Exchange(attempts, order[0]), Rows(attempts, order[1..]));
      var asking := Asking(attempts, order);
      if BeginsRemember(attempts[order[0]].payload.msg) {
        assert asking == [order[0]] + Asking(attempts, order[1..]);
        assert asking[1..] == Asking(attempts, order[1..]);
      } else {
        assert asking == Asking(attempts, order[1..]);
      }
    }
  }

  /** The claims of one exchange, and those of what follows. */
  lemma ClaimsOfOne(one: seq<Message>, rest: seq<Message>)
    requires |one| == 2 && one[0].role.Player? && one[1].role.Npc?
    ensures Claims(one + rest) == (if AsksToRemember(one[0].text) then [one[0]] else []) + Claims(rest)
  {
    hide AsksToRemember;
    var ms := one + rest;
    assert ms[1..] == [one[1]] + rest;
    assert ([one[1]] + rest)[1..] == rest;
    assert Claims(ms[1..]) == [] + Claims(rest);
  }

  lemma {:induction false} FirstPlayerRows(attempts: seq<Attempt>, order: seq<nat>, n: nat)
    requires InTable(attempts, order)
    ensures InTable(attempts, FirstOnes(order, n))
    ensures FirstOnes(PlayerRows(attempts, order), n) == PlayerRows(attempts, FirstOnes(order, n))
  {
    hide BeginsRemember;
    if order != [] && n > 0 {
      FirstPlayerRows(attempts, order[1..], n - 1);
      assert FirstOnes(order, n) == [order[0]] + FirstOnes(order[1..], n - 1);
    }
  }

  /** The pinned statements are the player's own words in the first three such exchanges of the scope. */
  lemma PinnedAreFirstRequests(db: Db, order: seq<nat>, camp: string, branch: string, npc: string)
    requires DbInv(db, order)
    ensures var first := FirstThree(Asking(db.attempts, Selected(db, order, camp, branch, npc)));
      InTable(db.attempts, first) && Memories(db, camp, branch, npc).claims == PlayerRows(db.attempts, first)
  {
    var selected := Selected(db, order, camp, branch, npc);
    HeardIsSelected(db, order, camp, branch, npc);
    ClaimsAreAsking(db.attempts, selected);
    FirstPlayerRows(db.attempts, Asking(db.attempts, selected), CLAIM_ROWS);
  }
}
