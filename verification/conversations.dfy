/**
 * The server's chat history: the `conversations` table (id, user_id, role,
 * content) with an AUTOINCREMENT primary key, the append done by
 * save_message and the read done by load_history.
 */
module Conversations {

  /** One row of the table. */
  datatype Row = Row(id: nat, userId: string, role: string, content: string)

  /** One history item in the form the Gemini chat API takes: {"role": r, "parts": [c]}. */
  datatype Entry = Entry(role: string, parts: seq<string>)

  /** load_history's default `limit`. */
  const DefaultLimit := 10

  /** Table order is id order: every row was appended with a larger id than the rows before it. */
  predicate IdsAscending(rows: seq<Row>) {
    forall i, j | 0 <= i < j < |rows| :: rows[i].id < rows[j].id
  }

  predicate IdsDescending(rows: seq<Row>) {
    forall i, j | 0 <= i < j < |rows| :: rows[i].id > rows[j].id
  }

  /** WHERE user_id = ?: the rows of one user, in table order. */
  function RowsOf(rows: seq<Row>, userId: string): (r: seq<Row>)
    ensures forall x :: x in r <==> x in rows && x.userId == userId
    ensures IdsAscending(rows) ==> IdsAscending(r)
  {
    if rows == [] then []
    else if rows[0].userId == userId then [rows[0]] + RowsOf(rows[1..], userId)
    else RowsOf(rows[1..], userId)
  }

  function Reverse<T>(s: seq<T>): (r: seq<T>)
    ensures |r| == |s|
  {
    if s == [] then [] else Reverse(s[1..]) + [s[0]]
  }

  lemma {:induction false} ReverseAt<T>(s: seq<T>, i: nat)
    requires i < |s|
    ensures Reverse(s)[i] == s[|s| - 1 - i]
  {
    if i < |s| - 1 {
      ReverseAt(s[1..], i);
    }
  }

  /** How many rows LIMIT keeps out of `count`; SQLite reads a negative limit as no limit. */
  function Kept(limit: int, count: nat): (n: nat)
    ensures n <= count
    ensures limit >= 0 ==> n <= limit
    ensures limit < 0 || limit >= count ==> n == count
    ensures 0 <= limit < count ==> n == limit
  {
    if limit < 0 || limit >= count then count else limit
  }

  /** The first `n` rows of `mine` reversed: descending ids, and newer than every row left out. */
  lemma NewestFirst(mine: seq<Row>, n: nat)
    requires IdsAscending(mine) && n <= |mine|
    ensures IdsDescending(Reverse(mine)[..n])
    ensures forall x | x in Reverse(mine)[..n] :: x in mine
    ensures forall x, y | x in mine && x !in Reverse(mine)[..n] && y in Reverse(mine)[..n] :: x.id < y.id
  {
    NewestFirstDescending(mine, n);
    NewestFirstFromMine(mine, n);
    NewestFirstNewer(mine, n);
  }

  lemma NewestFirstDescending(mine: seq<Row>, n: nat)
    requires IdsAscending(mine) && n <= |mine|
    ensures IdsDescending(Reverse(mine)[..n])
  {
    var r := Reverse(mine)[..n];
    forall i, j | 0 <= i < j < n ensures r[i].id > r[j].id {
      ReverseAt(mine, i);
      ReverseAt(mine, j);
    }
  }

  lemma NewestFirstFromMine(mine: seq<Row>, n: nat)
    requires n <= |mine|
    ensures forall x | x in Reverse(mine)[..n] :: x in mine
  {
    var r := Reverse(mine)[..n];
    forall x | x in r ensures x in mine {
      var k :| 0 <= k < n && r[k] == x;
      ReverseAt(mine, k);
    }
  }

  lemma NewestFirstNewer(mine: seq<Row>, n: nat)
    requires IdsAscending(mine) && n <= |mine|
    ensures forall x, y | x in mine && x !in Reverse(mine)[..n] && y in Reverse(mine)[..n] :: x.id < y.id
  {
    var r := Reverse(mine)[..n];
    var m := |mine|;
    forall x, y | x in mine && x !in r && y in r ensures x.id < y.id {
      var i :| 0 <= i < m && mine[i] == x;
      var k :| 0 <= k < n && r[k] == y;
      ReverseAt(mine, k);
      InNewest(mine, n, i);
    }
  }

  /** The last `n` rows of `mine` are the ones its reversal's first `n` hold. */
  lemma InNewest(mine: seq<Row>, n: nat, i: nat)
    requires n <= |mine| && i < |mine|
    ensures i >= |mine| - n ==> mine[i] in Reverse(mine)[..n]
  {
    if i >= |mine| - n {
      var r := Reverse(mine);
      var j := |mine| - 1 - i;
      ReverseAt(mine, j);
      assert r[j] == mine[i];
      assert r[..n][j] == r[j];
    }
  }

  /**
   * SELECT role, content FROM conversations WHERE user_id = ? ORDER BY id
   * DESC LIMIT ?: the user's rows, newest first, as many as the limit keeps.
   */
  function Query(rows: seq<Row>, userId: string, limit: int): (r: seq<Row>)
    ensures |r| == Kept(limit, |RowsOf(rows, userId)|)
  {
    var mine := RowsOf(rows, userId);
    Reverse(mine)[..Kept(limit, |mine|)]
  }

  /**
   * What the query returns: rows of the user only, in descending id order,
   * and every row of the user left out is older than every row returned.
   */
  lemma QueryIsNewestFirst(rows: seq<Row>, userId: string, limit: int)
    requires IdsAscending(rows)
    ensures var r := Query(rows, userId, limit);
            && IdsDescending(r)
            && (forall x | x in r :: x in rows && x.userId == userId)
            && (forall x, y | x in rows && x.userId == userId && x !in r && y in r :: x.id < y.id)
  {
    var mine := RowsOf(rows, userId);
    NewestFirst(mine, Kept(limit, |mine|));
  }

  function Entries(rows: seq<Row>): (r: seq<Entry>)
    ensures |r| == |rows|
  {
    seq(|rows|, i requires 0 <= i < |rows| => Entry(rows[i].role, [rows[i].content]))
  }

  /**
   * load_history(user_id, limit): the rows Query returns, put back in
   * chronological order (oldest first), each as an Entry.
   */
  function LoadHistory(rows: seq<Row>, userId: string, limit: int): (r: seq<Entry>)
    ensures limit >= 0 ==> |r| <= limit
    ensures |r| == Kept(limit, |RowsOf(rows, userId)|)
  {
    Entries(Reverse(Query(rows, userId, limit)))
  }

  lemma {:induction false} ReverseReverse<T>(s: seq<T>, n: nat)
    requires n <= |s|
    ensures Reverse(Reverse(s)[..n]) == s[|s| - n..]
  {
    var a := Reverse(Reverse(s)[..n]);
    var b := s[|s| - n..];
    assert |a| == |b|;
    forall i | 0 <= i < n ensures a[i] == b[i] {
      ReverseAt(Reverse(s)[..n], i);
      ReverseAt(s, n - 1 - i);
    }
  }

  /**
   * The history load_history returns is the user's last rows in table
   * order, oldest first: the `|r|` most recent of them, each as its
   * role and a one-part content list.
   */
  lemma LoadHistoryIsMostRecent(rows: seq<Row>, userId: string, limit: int)
    ensures var mine := RowsOf(rows, userId);
            var n := Kept(limit, |mine|);
            LoadHistory(rows, userId, limit) == Entries(mine[|mine| - n..])
  {
    QueryReversed(rows, userId, limit);
  }

  /** Query's rows, reversed back: the last rows of the user, in table order. */
  lemma QueryReversed(rows: seq<Row>, userId: string, limit: int)
    ensures var mine := RowsOf(rows, userId);
            Reverse(Query(rows, userId, limit)) == mine[|mine| - Kept(limit, |mine|)..]
  {
    var mine := RowsOf(rows, userId);
    var n := Kept(limit, |mine|);
    assert Query(rows, userId, limit) == Reverse(mine)[..n];
    ReverseReverse(mine, n);
  }

  /** Every entry of the history comes from one of the user's rows, and the entries are in ascending id order. */
  lemma LoadHistoryFromUserOnly(rows: seq<Row>, userId: string, limit: int, i: nat)
    requires IdsAscending(rows)
    requires i < |LoadHistory(rows, userId, limit)|
    ensures exists x :: x in rows && x.userId == userId
                        && LoadHistory(rows, userId, limit)[i] == Entry(x.role, [x.content])
  {
    var q := Query(rows, userId, limit);
    QueryIsNewestFirst(rows, userId, limit);
    var x := Reverse(q)[i];
    ReverseAt(q, i);
    assert x in q;
  }

  /**
   * The table. `nextId` stands for SQLite's AUTOINCREMENT counter: ids are
   * never reused, so each new row gets an id larger than every row before.
   */
  class ConversationTable {
    var rows: seq<Row>
    var nextId: nat

    ghost predicate Valid()
      reads this
    {
      IdsAscending(rows) && forall i | 0 <= i < |rows| :: rows[i].id < nextId
    }

    /** CREATE TABLE IF NOT EXISTS on a database that holds no table yet. */
    constructor ()
      ensures Valid() && rows == [] && nextId == 1
    {
      rows := [];
      nextId := 1;
    }

    /**
     * save_message: INSERT INTO conversations (user_id, role, content) and
     * commit. Exactly one row is appended, with a fresh id larger than any
     * before it, and the rows already there are unchanged.
     */
    method SaveMessage(userId: string, role: string, content: string)
      requires Valid()
      modifies this
      ensures Valid()
      ensures rows == old(rows) + [Row(old(nextId), userId, role, content)]
      ensures nextId == old(nextId) + 1
    {
      rows := rows + [Row(nextId, userId, role, content)];
      nextId := nextId + 1;
    }
  }
}
