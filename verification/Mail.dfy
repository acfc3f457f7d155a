/**
 The mail listener: fetch from the cursor, record, enqueue, and only then
 advance the cursor, while the server and the process do what they like.
 UIDVALIDITY values only grow, as section 2.3.1.1 of RFC 3501 requires.
 */
module Mail {
  import opened Text

  type Uid = nat
  type Epoch = nat
  type Hash = string

  datatype Row = Row(uid: Uid, raw: string)
  datatype Message = Message(uid: Uid, contentHash: Hash, text: string)
  datatype Cursor = Cursor(uidValidity: Epoch, lastUid: Uid)

  /**
   What the listener is given: a parser that may fail, a hash of the raw mail,
   the text that is built of its headers and body, a batch size.
   */
  datatype Env = Env(parses: string -> bool, hash: string -> Hash, text: string -> string, batchSize: int)

  datatype Store = Store(evidence: map<Hash, string>, jobs: set<Hash>, cursor: Option<Cursor>)

  // ----- the pieces of one pass -------------------------------------------

  function Above(box: seq<Row>, since: Uid): seq<Row> {
    if box == [] then []
    else (if box[0].uid > since then [box[0]] else []) + Above(box[1..], since)
  }

  /** The loop tests its length after each push, so a limit below one still takes one row. */
  function Taken(box: seq<Row>, since: Uid, limit: int): seq<Row> {
    var rows := Above(box, since);
    var n := if limit < 1 then 1 else limit;
    if |rows| <= n then rows else rows[..n]
  }

  /** Only the rows already taken are put in order: a server that answers out of order is cut first. */
  function ByUid(rows: seq<Row>): seq<Row> {
    if rows == [] then [] else Slot(rows[|rows| - 1], ByUid(rows[..|rows| - 1]))
  }

  function Slot(row: Row, rows: seq<Row>): seq<Row> {
    if rows == [] || rows[|rows| - 1].uid <= row.uid then rows + [row]
    else Slot(row, rows[..|rows| - 1]) + [rows[|rows| - 1]]
  }

  function Batch(box: seq<Row>, since: Uid, limit: int): seq<Row> {
    ByUid(Taken(box, since, limit))
  }

  function Normalized(env: Env, row: Row): Message {
    Message(row.uid, env.hash(row.raw), env.text(row.raw))
  }

  /** A row that does not parse is skipped, not fatal. */
  function ParsedRow(env: Env, row: Row): seq<Message> {
    if env.parses(row.raw) then [Normalized(env, row)] else []
  }

  function Parsed(env: Env, rows: seq<Row>): seq<Message> {
    if rows == [] then [] else ParsedRow(env, rows[0]) + Parsed(env, rows[1..])
  }

  function Since(cursor: Option<Cursor>, uidValidity: Epoch): Uid {
    if cursor.Some? && cursor.value.uidValidity == uidValidity then cursor.value.lastUid else 0
  }

  /** Put-if-absent: the first copy of a content hash is the one kept. */
  function Recorded(s: Store, m: Message): Store {
    if m.contentHash in s.evidence then s
    else s.(evidence := s.evidence[m.contentHash := m.text])
  }

  function Enqueued(s: Store, m: Message): Store {
    s.(jobs := s.jobs + {m.contentHash})
  }

  /** One message of the loop: a job only for evidence that was new. */
  function Ingested(s: Store, m: Message): Store {
    if m.contentHash in s.evidence then s else Enqueued(Recorded(s, m), m)
  }

  function IngestedAll(s: Store, messages: seq<Message>): Store
    decreases |messages|
  {
    if messages == [] then s else IngestedAll(Ingested(s, messages[0]), messages[1..])
  }

  function HighestUid(messages: seq<Message>): Uid
    requires messages != []
  {
    if |messages| == 1 then messages[0].uid
    else
      var rest := HighestUid(messages[1..]);
      if messages[0].uid > rest then messages[0].uid else rest
  }

  /** `advance`: forward only, within one UIDVALIDITY. */
  function Advanced(cursor: Option<Cursor>, uidValidity: Epoch, lastUid: Uid): Option<Cursor> {
    Some(Cursor(uidValidity,
                if cursor.Some? && cursor.value.uidValidity == uidValidity && cursor.value.lastUid > lastUid
                then cursor.value.lastUid else lastUid))
  }

  /** A whole pass without interruption, over what the server answered. */
  function Pass(env: Env, s: Store, uidValidity: Epoch, box: seq<Row>): Store {
    var messages := Parsed(env, Batch(box, Since(s.cursor, uidValidity), env.batchSize));
    if messages == [] then s
    else
      var t := IngestedAll(s, messages);
      t.(cursor := Advanced(s.cursor, uidValidity, HighestUid(messages)))
  }

  class Listener {
    const env: Env
    var store: Store

    constructor (env: Env, store: Store)
      ensures this.env == env && this.store == store
    {
      this.env, this.store := env, store;
    }

    method FetchSince(box: seq<Row>, sinceUid: Uid) returns (rows: seq<Row>)
      ensures rows == Batch(box, sinceUid, env.batchSize)
    {
      rows := [];
      for i := 0 to |box|
        invariant rows == Above(box[..i], sinceUid)
        invariant rows == [] || |rows| < env.batchSize
      {
        assert box[..i + 1] == box[..i] + [box[i]];
        AboveSnoc(box[..i], box[i], sinceUid);
        if box[i].uid > sinceUid {
          rows := rows + [box[i]];
          if |rows| >= env.batchSize {
            TakenIsFull(box, i + 1, sinceUid, env.batchSize);
            return ByUid(rows);
          }
        }
      }
      assert box[..|box|] == box;
      rows := ByUid(rows);
    }

    method FetchNew(uidValidity: Epoch, box: seq<Row>) returns (messages: seq<Message>, resynced: bool)
      ensures messages == Parsed(env, Batch(box, Since(store.cursor, uidValidity), env.batchSize))
      ensures resynced <==> store.cursor.Some? && store.cursor.value.uidValidity != uidValidity
    {
      var held := store.cursor;
      var sameEpoch := held.Some? && held.value.uidValidity == uidValidity;
      resynced := held.Some? && !sameEpoch;
      var rows := FetchSince(box, if sameEpoch then held.value.lastUid else 0);
      messages := [];
      for i := 0 to |rows|
        invariant messages == Parsed(env, rows[..i])
      {
        assert rows[..i + 1] == rows[..i] + [rows[i]];
        ParsedSnoc(env, rows[..i], rows[i]);
        if env.parses(rows[i].raw) {
          messages := messages + [Normalized(env, rows[i])];
        }
      }
      assert rows[..|rows|] == rows;
    }

    /** `ingestMail`. */
    method IngestMail(uidValidity: Epoch, box: seq<Row>) returns (recorded: nat, duplicates: nat, enqueued: nat)
      modifies this
      ensures store == Pass(env, old(store), uidValidity, box)
      ensures recorded + duplicates == |Parsed(env, Batch(box, Since(old(store).cursor, uidValidity), env.batchSize))|
      ensures recorded == |store.evidence| - |old(store).evidence|
      ensures enqueued <= recorded
    {
      recorded, duplicates, enqueued := 0, 0, 0;
      var messages, _ := FetchNew(uidValidity, box);
      if messages == [] { return; }
      var highestUid: Option<Uid> := None;
      ghost var all := IngestedAll(store, messages);
      assert messages[0..] == messages;
      for i := 0 to |messages|
        invariant IngestedAll(store, messages[i..]) == all && store.cursor == old(store).cursor
        invariant highestUid == Highest(messages[..i])
        invariant recorded + duplicates == i && enqueued <= recorded
        invariant recorded == |store.evidence| - |old(store).evidence|
      {
        var m := messages[i];
        IngestOne(store, messages, i);
        HighestOneMore(messages, i);
        if m.contentHash in store.evidence {
          duplicates := duplicates + 1;
        } else {
          recorded := recorded + 1;
          store := store.(evidence := store.evidence[m.contentHash := m.text]);
          if m.contentHash !in store.jobs { enqueued := enqueued + 1; }
          store := store.(jobs := store.jobs + {m.contentHash});
        }
        highestUid := Some(if highestUid.Some? && highestUid.value > m.uid then highestUid.value else m.uid);
      }
      NothingLeft(store, messages);
      var held := store.cursor;
      store := store.(cursor := Advanced(held, uidValidity, highestUid.value));
    }
  }

  function Highest(messages: seq<Message>): Option<Uid> {
    if messages == [] then None else Some(HighestUid(messages))
  }

  lemma HighestOneMore(messages: seq<Message>, i: nat)
    requires i < |messages|
    ensures var before, uid := Highest(messages[..i]), messages[i].uid;
            Highest(messages[..i + 1]) == Some(if before.Some? && before.value > uid then before.value else uid)
  {
    assert messages[..i + 1] == messages[..i] + [messages[i]];
    if i > 0 { HighestSnoc(messages[..i], messages[i]); }
  }

  lemma IngestOne(s: Store, messages: seq<Message>, i: nat)
    requires i < |messages|
    ensures IngestedAll(s, messages[i..]) == IngestedAll(Ingested(s, messages[i]), messages[i + 1..])
  {
    assert messages[i..][0] == messages[i] && messages[i..][1..] == messages[i + 1..];
  }

  lemma NothingLeft(s: Store, messages: seq<Message>)
    ensures IngestedAll(s, messages[|messages|..]) == s && messages[..|messages|] == messages
  {
  }

  lemma {:induction false} AboveSnoc(box: seq<Row>, row: Row, since: Uid)
    ensures Above(box + [row], since) == Above(box, since) + (if row.uid > since then [row] else [])
  {
    AboveConcat(box, [row], since);
  }

  lemma {:induction false} AboveConcat(a: seq<Row>, b: seq<Row>, since: Uid)
    ensures Above(a + b, since) == Above(a, since) + Above(b, since)
  {
    if a == [] {
      assert a + b == b;
    } else {
      assert (a + b)[1..] == a[1..] + b;
      AboveConcat(a[1..], b, since);
    }
  }

  lemma AboveSplit(box: seq<Row>, i: nat, since: Uid)
    requires i <= |box|
    ensures Above(box, since) == Above(box[..i], since) + Above(box[i..], since)
  {
    assert box == box[..i] + box[i..];
    AboveConcat(box[..i], box[i..], since);
  }

  lemma TakenIsFull(box: seq<Row>, i: nat, since: Uid, limit: int)
    requires i <= |box| && |Above(box[..i], since)| == if limit < 1 then 1 else limit
    ensures Taken(box, since, limit) == Above(box[..i], since)
  {
    AboveSplit(box, i, since);
  }

  lemma {:induction false} AboveMember(box: seq<Row>, since: Uid, row: Row)
    ensures row in Above(box, since) <==> row in box && row.uid > since
  {
    if box != [] {
      AboveMember(box[1..], since, row);
    }
  }

  lemma {:induction false} ParsedSnoc(env: Env, rows: seq<Row>, row: Row)
    ensures Parsed(env, rows + [row])
         == Parsed(env, rows) + ParsedRow(env, row)
  {
    if rows == [] {
      assert rows + [row] == [row];
    } else {
      assert (rows + [row])[1..] == rows[1..] + [row];
      ParsedSnoc(env, rows[1..], row);
      Assoc(ParsedRow(env, rows[0]), Parsed(env, rows[1..]), ParsedRow(env, row));
    }
  }

  lemma {:induction false} HighestSnoc(messages: seq<Message>, m: Message)
    requires messages != []
    ensures HighestUid(messages + [m])
         == if HighestUid(messages) > m.uid then HighestUid(messages) else m.uid
  {
    if |messages| > 1 {
      assert (messages + [m])[1..] == messages[1..] + [m];
      HighestSnoc(messages[1..], m);
    }
  }

  // ----- the world a pass runs in -----------------------------------------

  /** Where the listener is; the rows of a batch come from whatever the server held at the fetch. */
  datatype Place =
    | Idle
    | Asked(uidValidity: Epoch, since: Uid)
    | Working(uidValidity: Epoch, messages: seq<Message>, done: nat)
    | AwaitingJob(uidValidity: Epoch, messages: seq<Message>, done: nat)

  datatype World = World(epoch: Epoch, nextUid: Uid, box: seq<Row>, place: Place, store: Store,
                         orphans: set<Hash>)

  datatype Step =
    // the server
    | Arrives(raw: string, gap: nat)
    | Expunged(uid: Uid)
    | Renumbered(epoch: Epoch, box: seq<Row>, nextUid: Uid)
    // the listener
    | AskStatus | Fetch | RecordNext | EnqueueJob | Commit
    // the process
    | Crash

  ghost predicate Ordered(box: seq<Row>, nextUid: Uid) {
    && nextUid > 0
    && (forall i, j :: 0 <= i < j < |box| ==> box[i].uid < box[j].uid)
    && (forall row :: row in box ==> 0 < row.uid < nextUid)
  }

  function Removed(box: seq<Row>, uid: Uid): seq<Row> {
    if box == [] then [] else (if box[0].uid == uid then [] else [box[0]]) + Removed(box[1..], uid)
  }

  ghost predicate Enabled(w: World, step: Step) {
    match step
    case Renumbered(epoch, box, nextUid) => epoch > w.epoch && Ordered(box, nextUid)
    case AskStatus => w.place.Idle?
    case Fetch => w.place.Asked?
    case RecordNext => w.place.Working? && w.place.done < |w.place.messages|
    case EnqueueJob => w.place.AwaitingJob? && w.place.done < |w.place.messages|
    case Commit => w.place.Working? && w.place.done == |w.place.messages|
    case _ => true
  }

  function Next(env: Env, w: World, step: Step): World
    requires Enabled(w, step)
  {
    match step
    case Arrives(raw, gap) => w.(box := w.box + [Row(w.nextUid + gap, raw)], nextUid := w.nextUid + gap + 1)
    case Expunged(uid) => w.(box := Removed(w.box, uid))
    case Renumbered(epoch, box, nextUid) => w.(epoch := epoch, box := box, nextUid := nextUid)
    case AskStatus => w.(place := Asked(w.epoch, Since(w.store.cursor, w.epoch)))
    case Fetch =>
      var messages := Parsed(env, Batch(w.box, w.place.since, env.batchSize));
      w.(place := if messages == [] then Idle else Working(w.place.uidValidity, messages, 0))
    case RecordNext =>
      var m := w.place.messages[w.place.done];
      if m.contentHash in w.store.evidence then
        w.(place := Working(w.place.uidValidity, w.place.messages, w.place.done + 1))
      else w.(store := Recorded(w.store, m),
              place := AwaitingJob(w.place.uidValidity, w.place.messages, w.place.done))
    case EnqueueJob =>
      w.(store := Enqueued(w.store, w.place.messages[w.place.done]),
         place := Working(w.place.uidValidity, w.place.messages, w.place.done + 1))
    case Commit =>
      if w.place.messages == [] then w.(place := Idle)
      else w.(place := Idle, store := w.store.(cursor :=
             Advanced(w.store.cursor, w.place.uidValidity, HighestUid(w.place.messages))))
    case Crash =>
      w.(place := Idle,
         orphans := w.orphans
           + (if w.place.AwaitingJob? && w.place.done < |w.place.messages|
              then {w.place.messages[w.place.done].contentHash} else {}))
  }

  // ----- what no crash or renumbering can break ---------------------------

  predicate Kept(env: Env, s: Store, row: Row) {
    env.parses(row.raw) ==> env.hash(row.raw) in s.evidence
  }

  /** Everything at or below a current cursor is recorded, or did not parse. */
  ghost predicate NothingLost(env: Env, w: World) {
    w.store.cursor.Some? && w.store.cursor.value.uidValidity == w.epoch
    ==> forall row :: row in w.box && row.uid <= w.store.cursor.value.lastUid ==> Kept(env, w.store, row)
  }

  ghost predicate CursorOk(w: World) {
    w.store.cursor.Some? ==>
      && w.store.cursor.value.uidValidity <= w.epoch
      && (w.store.cursor.value.uidValidity == w.epoch ==> w.store.cursor.value.lastUid < w.nextUid)
  }

  /** Once the remaining messages are recorded, the cursor may cover them all. */
  ghost predicate Covers(env: Env, w: World, messages: seq<Message>, done: nat)
    requires done <= |messages|
  {
    && messages != [] && HighestUid(messages) < w.nextUid
    && forall row :: row in w.box && row.uid <= HighestUid(messages)
         ==> Kept(env, w.store, row) || Normalized(env, row) in messages[done..]
  }

  ghost predicate PlaceOk(env: Env, w: World) {
    match w.place
    case Idle => true
    case Asked(v, since) =>
      v <= w.epoch && BehindCursor(w, v) && (v == w.epoch ==> since == Since(w.store.cursor, w.epoch))
    case Working(v, messages, done) =>
      && done <= |messages| && messages != [] && v <= w.epoch && BehindCursor(w, v)
      && (v == w.epoch ==> Covers(env, w, messages, done))
    case AwaitingJob(v, messages, done) =>
      && done < |messages| && v <= w.epoch && BehindCursor(w, v)
      && messages[done].contentHash in w.store.evidence
      && (v == w.epoch ==> Covers(env, w, messages, done + 1))
  }

  ghost predicate BehindCursor(w: World, v: Epoch) {
    w.store.cursor.Some? ==> w.store.cursor.value.uidValidity <= v
  }

  /** Evidence without a job is exactly what a crash orphaned, or the message in hand. */
  ghost predicate JobsOk(w: World) {
    && w.store.jobs !! w.orphans
    && (forall h :: h in w.store.evidence <==>
          h in w.store.jobs || h in w.orphans
          || (w.place.AwaitingJob? && w.place.done < |w.place.messages|
              && h == w.place.messages[w.place.done].contentHash))
    && (w.place.AwaitingJob? && w.place.done < |w.place.messages| ==>
          w.place.messages[w.place.done].contentHash !in w.store.jobs + w.orphans)
  }

  /** This is the text of a mail with this hash. */
  ghost predicate TextUnder(env: Env, h: Hash, text: string) {
    exists raw :: env.hash(raw) == h && env.text(raw) == text
  }

  ghost predicate Hashed(env: Env, messages: seq<Message>) {
    forall m <- messages :: TextUnder(env, m.contentHash, m.text)
  }

  /** Evidence is the text of a mail with the hash it stands under, and so is what is in hand. */
  ghost predicate EvidenceOk(env: Env, w: World) {
    && (forall h :: h in w.store.evidence ==> TextUnder(env, h, w.store.evidence[h]))
    && (w.place.Working? || w.place.AwaitingJob? ==> Hashed(env, w.place.messages))
  }

  ghost predicate Inv(env: Env, w: World) {
    && Ordered(w.box, w.nextUid) && CursorOk(w) && NothingLost(env, w)
    && PlaceOk(env, w) && JobsOk(w) && EvidenceOk(env, w)
  }

  lemma {:induction false} ParsedIsHashed(env: Env, rows: seq<Row>)
    ensures Hashed(env, Parsed(env, rows))
  {
    if rows != [] {
      var m := Normalized(env, rows[0]);
      assert env.hash(rows[0].raw) == m.contentHash;
      ParsedIsHashed(env, rows[1..]);
    }
  }

  lemma {:induction false} AboveAscends(box: seq<Row>, since: Uid, nextUid: Uid)
    requires Ordered(box, nextUid)
    ensures Ordered(Above(box, since), nextUid)
  {
    if box != [] {
      var rest := box[1..];
      assert box == [box[0]] + rest;
      AboveAscends(rest, since, nextUid);
      forall i | 0 <= i < |Above(rest, since)| ensures box[0].uid < Above(rest, since)[i].uid {
        AboveMember(rest, since, Above(rest, since)[i]);
      }
    }
  }

  lemma {:induction false} ByUidFixes(rows: seq<Row>)
    requires forall i, j :: 0 <= i < j < |rows| ==> rows[i].uid < rows[j].uid
    ensures ByUid(rows) == rows
  {
    if rows != [] {
      var n := |rows| - 1;
      ByUidFixes(rows[..n]);
      assert rows == rows[..n] + [rows[n]];
    }
  }

  /** Of a mailbox in order, a batch is simply the first rows above the cursor. */
  lemma BatchIsTaken(box: seq<Row>, nextUid: Uid, since: Uid, limit: int)
    requires Ordered(box, nextUid)
    ensures Batch(box, since, limit) == Taken(box, since, limit)
  {
    AboveAscends(box, since, nextUid);
    ByUidFixes(Taken(box, since, limit));
  }

  lemma {:induction false} ParsedMember(env: Env, rows: seq<Row>, row: Row)
    requires row in rows && env.parses(row.raw)
    ensures Normalized(env, row) in Parsed(env, rows)
  {
    if row != rows[0] { ParsedMember(env, rows[1..], row); }
  }

  lemma {:induction false} HighestIsARow(env: Env, rows: seq<Row>) returns (row: Row)
    requires Parsed(env, rows) != []
    ensures row in rows && row.uid == HighestUid(Parsed(env, rows)) && env.parses(row.raw)
  {
    var rest := rows[1..];
    if env.parses(rows[0].raw) {
      row := rows[0];
      if Parsed(env, rest) != [] {
        assert Parsed(env, rows)[1..] == Parsed(env, rest);
        var r := HighestIsARow(env, rest);
        if r.uid >= row.uid { row := r; }
      }
    } else {
      assert Parsed(env, rows) == Parsed(env, rest);
      row := HighestIsARow(env, rest);
    }
  }

  /** A batch leaves no gap below its highest message. */
  lemma BatchLeavesNoGap(env: Env, box: seq<Row>, nextUid: Uid, since: Uid, limit: int, row: Row)
    requires Ordered(box, nextUid) && Parsed(env, Batch(box, since, limit)) != []
    requires row in box && since < row.uid <= HighestUid(Parsed(env, Batch(box, since, limit)))
    ensures row in Batch(box, since, limit)
    ensures env.parses(row.raw) ==> Normalized(env, row) in Parsed(env, Batch(box, since, limit))
  {
    BatchIsTaken(box, nextUid, since, limit);
    var rows, all := Batch(box, since, limit), Above(box, since);
    AboveAscends(box, since, nextUid);
    AboveMember(box, since, row);
    var top := HighestIsARow(env, rows);
    var i :| 0 <= i < |all| && all[i] == row;
    var j :| 0 <= j < |rows| && rows[j] == top;
    assert all[j] == top;
    assert rows[i] == row;
    if env.parses(row.raw) { ParsedMember(env, rows, row); }
  }

  lemma BatchStaysBelow(env: Env, box: seq<Row>, nextUid: Uid, since: Uid, limit: int)
    requires Ordered(box, nextUid) && Parsed(env, Batch(box, since, limit)) != []
    ensures since < HighestUid(Parsed(env, Batch(box, since, limit))) < nextUid
  {
    BatchIsTaken(box, nextUid, since, limit);
    var top := HighestIsARow(env, Batch(box, since, limit));
    assert top in Above(box, since);
    AboveMember(box, since, top);
  }

  lemma FetchKeepsInv(env: Env, w: World)
    requires Inv(env, w) && w.place.Asked?
    ensures Inv(env, Next(env, w, Fetch))
  {
    var since := w.place.since;
    var messages := Parsed(env, Batch(w.box, since, env.batchSize));
    ParsedIsHashed(env, Batch(w.box, since, env.batchSize));
    if messages != [] && w.place.uidValidity == w.epoch {
      BatchStaysBelow(env, w.box, w.nextUid, since, env.batchSize);
      forall row | row in w.box && row.uid <= HighestUid(messages)
        ensures Kept(env, w.store, row) || Normalized(env, row) in messages[0..]
      {
        if row.uid > since { BatchLeavesNoGap(env, w.box, w.nextUid, since, env.batchSize, row); }
        assert messages[0..] == messages;
      }
    }
  }

  lemma RecordKeepsInv(env: Env, w: World)
    requires Inv(env, w) && Enabled(w, RecordNext)
    ensures Inv(env, Next(env, w, RecordNext))
  {
    var messages, done := w.place.messages, w.place.done;
    var n := Next(env, w, RecordNext);
    assert messages[done..] == [messages[done]] + messages[done + 1..];
    if w.place.uidValidity == w.epoch {
      forall row | row in w.box && row.uid <= HighestUid(messages)
        ensures Kept(env, n.store, row) || Normalized(env, row) in messages[done + 1..]
      {
        assert Kept(env, w.store, row) || Normalized(env, row) in messages[done..];
      }
    }
  }

  lemma CommitKeepsInv(env: Env, w: World)
    requires Inv(env, w) && Enabled(w, Commit)
    ensures Inv(env, Next(env, w, Commit))
  {
    var messages := w.place.messages;
    assert messages[w.place.done..] == [];
  }

  lemma {:induction false} RemovedOrdered(box: seq<Row>, uid: Uid, nextUid: Uid)
    requires Ordered(box, nextUid)
    ensures Ordered(Removed(box, uid), nextUid)
    ensures forall row :: row in Removed(box, uid) ==> row in box
  {
    if box != [] {
      assert box == [box[0]] + box[1..];
      RemovedOrdered(box[1..], uid, nextUid);
      var rest := Removed(box[1..], uid);
      assert forall i :: 0 <= i < |rest| ==> rest[i] in box[1..];
    }
  }

  /** A message that arrives is above every cursor and every batch of its epoch. */
  lemma ArrivalKeepsInv(env: Env, w: World, raw: string, gap: nat)
    requires Inv(env, w)
    ensures Inv(env, Next(env, w, Arrives(raw, gap)))
  {
    var n := Next(env, w, Arrives(raw, gap));
    assert forall row :: row in n.box ==> row in w.box || row.uid == w.nextUid + gap;
  }

  lemma ExpungeKeepsInv(env: Env, w: World, uid: Uid)
    requires Inv(env, w)
    ensures Inv(env, Next(env, w, Expunged(uid)))
  {
    RemovedOrdered(w.box, uid, w.nextUid);
  }

  lemma StepKeepsInv(env: Env, w: World, step: Step)
    requires Inv(env, w) && Enabled(w, step)
    ensures Inv(env, Next(env, w, step))
  {
    match step
    case Arrives(raw, gap) => ArrivalKeepsInv(env, w, raw, gap);
    case Expunged(uid) => ExpungeKeepsInv(env, w, uid);
    case Fetch => FetchKeepsInv(env, w);
    case RecordNext => RecordKeepsInv(env, w);
    case Commit => CommitKeepsInv(env, w);
    case _ =>
  }

  ghost predicate Run(env: Env, w: World, steps: seq<Step>, final: World)
    decreases |steps|
  {
    if steps == [] then final == w
    else Enabled(w, steps[0]) && Run(env, Next(env, w, steps[0]), steps[1..], final)
  }

  /**
   Under crashes at any point, new arrivals, deletions and renumbering, even
   between the status and the fetch: nothing at or below a current cursor is
   lost, evidence is never rewritten, and an orphaned message stays orphaned.
   */
  lemma {:induction false} EveryRun(env: Env, w: World, steps: seq<Step>, final: World)
    requires Inv(env, w) && Run(env, w, steps, final)
    ensures Inv(env, final)
    ensures forall h :: h in w.store.evidence
              ==> h in final.store.evidence && final.store.evidence[h] == w.store.evidence[h]
    ensures w.orphans <= final.orphans && w.store.jobs <= final.store.jobs
    decreases |steps|
  {
    if steps != [] {
      StepKeepsInv(env, w, steps[0]);
      EveryRun(env, Next(env, w, steps[0]), steps[1..], final);
    }
  }

  /** Recorded mail gets its job unless a crash fell between the two, and then never. */
  lemma OrphansHaveNoJob(env: Env, w: World, h: Hash)
    requires Inv(env, w) && w.place.Idle? && h in w.store.evidence
    ensures h !in w.store.jobs <==> h in w.orphans
  {
  }

  /** A listener that has seen nothing, beside any mailbox. */
  predicate Fresh(w: World) {
    w.place == Idle && w.store == Store(map[], {}, None) && w.orphans == {}
  }

  lemma FreshIsSound(env: Env, w: World)
    requires Fresh(w) && Ordered(w.box, w.nextUid)
    ensures Inv(env, w)
  {
  }

  ghost predicate Injective(hash: string -> Hash) {
    forall a, b :: hash(a) == hash(b) ==> a == b
  }

  /**
   No mail is lost, from the first pass on: under a hash that tells mails apart,
   of every message at or below a current cursor that parses the very text is
   held that was built of it.
   */
  lemma EveryMailIsHeld(env: Env, first: World, steps: seq<Step>, w: World, row: Row)
    requires Fresh(first) && Ordered(first.box, first.nextUid) && Run(env, first, steps, w)
    requires w.store.cursor.Some? && w.store.cursor.value.uidValidity == w.epoch
    requires row in w.box && row.uid <= w.store.cursor.value.lastUid && env.parses(row.raw)
    ensures Kept(env, w.store, row)
    ensures Injective(env.hash) ==> w.store.evidence[env.hash(row.raw)] == env.text(row.raw)
  {
    FreshIsSound(env, first);
    EveryRun(env, first, steps, w);
  }

  lemma PairIsTaken(env: Env, first: Row, second: Row)
    requires 0 < first.uid < second.uid && env.batchSize == 2 && env.parses(first.raw) && env.parses(second.raw)
    ensures Parsed(env, Batch([first, second], 0, 2)) == [Normalized(env, first), Normalized(env, second)]
  {
    var rows := [first, second];
    assert rows[1..] == [second];
    AboveOne(second, 0);
    assert Above(rows, 0) == rows;
    ByUidFixes(rows);
    assert Parsed(env, [second]) == [Normalized(env, second)];
  }

  lemma PairIsIngested(s: Store, m: Message, n: Message)
    ensures IngestedAll(s, [m, n]) == Ingested(Ingested(s, m), n)
    ensures m.uid < n.uid ==> HighestUid([m, n]) == n.uid
  {
    assert [m, n][1..] == [n];
    IngestedOne(Ingested(s, m), n);
  }

  /** Under a hash that does not, of two such mails only the first is held, and the cursor passes both. */
  lemma CollidingMailIsDropped(env: Env, a: string, b: string)
    requires env.parses(a) && env.parses(b) && env.hash(a) == env.hash(b) && env.batchSize == 2
    ensures var t := Pass(env, Store(map[], {}, None), 7, [Row(1, a), Row(2, b)]);
            t.cursor == Some(Cursor(7, 2)) && t.evidence == map[env.hash(a) := env.text(a)]
  {
    PairIsTaken(env, Row(1, a), Row(2, b));
    PairIsIngested(Store(map[], {}, None), Normalized(env, Row(1, a)), Normalized(env, Row(2, b)));
  }

  lemma StepFirst(env: Env, w: World, step: Step, rest: seq<Step>, final: World)
    requires Enabled(w, step) && Run(env, Next(env, w, step), rest, final)
    ensures Run(env, w, [step] + rest, final)
  {
    assert ([step] + rest)[1..] == rest;
  }

  lemma OneIsTaken(env: Env, row: Row)
    requires row.uid > 0 && env.parses(row.raw)
    ensures Parsed(env, Batch([row], 0, env.batchSize)) == [Normalized(env, row)]
  {
    AboveOne(row, 0);
    ByUidFixes([row]);
    assert [row][1..] == [];
  }

  lemma OneMailIsFetched(env: Env, w: World, raw: string) returns (fetched: World)
    requires Fresh(w) && w.box == [] && w.nextUid == 1 && env.parses(raw)
    ensures fetched.place == Working(w.epoch, [Normalized(env, Row(1, raw))], 0)
    ensures fetched.store == w.store && fetched.orphans == {}
    ensures Run(env, w, [Arrives(raw, 0)] + ([AskStatus] + [Fetch]), fetched)
  {
    var arrived := Next(env, w, Arrives(raw, 0));
    var asked := Next(env, arrived, AskStatus);
    assert arrived.box == [Row(1, raw)];
    OneIsTaken(env, Row(1, raw));
    fetched := Next(env, asked, Fetch);
    ThreeSteps(env, w, Arrives(raw, 0), AskStatus, Fetch);
  }

  lemma ThreeSteps(env: Env, w: World, a: Step, b: Step, c: Step)
    requires Enabled(w, a) && Enabled(Next(env, w, a), b) && Enabled(Next(env, Next(env, w, a), b), c)
    ensures Run(env, w, [a] + ([b] + [c]), Next(env, Next(env, Next(env, w, a), b), c))
  {
    var x := Next(env, w, a);
    var y := Next(env, x, b);
    var z := Next(env, y, c);
    StepFirst(env, y, c, [], z);
    StepFirst(env, x, b, [c], z);
    StepFirst(env, w, a, [b] + [c], z);
  }

  lemma RecordThenCrash(env: Env, w: World, m: Message) returns (final: World)
    requires w.place.Working? && w.place.messages == [m] && w.place.done == 0 && w.store == Store(map[], {}, None)
    ensures Run(env, w, [RecordNext] + [Crash], final) && final.place.Idle?
    ensures final.store.evidence == map[m.contentHash := m.text] && final.store.jobs == {}
    ensures final.orphans == w.orphans + {m.contentHash}
  {
    var recorded := Next(env, w, RecordNext);
    final := Next(env, recorded, Crash);
    StepFirst(env, recorded, Crash, [], final);
    StepFirst(env, w, RecordNext, [Crash], final);
  }

  lemma {:induction false} RunAppends(env: Env, w: World, a: seq<Step>, middle: World, b: seq<Step>, final: World)
    requires Run(env, w, a, middle) && Run(env, middle, b, final)
    ensures Run(env, w, a + b, final)
    decreases |a|
  {
    if a == [] {
      assert a + b == b;
    } else {
      RunAppends(env, Next(env, w, a[0]), a[1..], middle, b, final);
      assert (a + b)[1..] == a[1..] + b;
    }
  }

  /** A crash between the record and its job leaves evidence that no job will ever read. */
  lemma CrashOrphansMail(env: Env, w: World, raw: string) returns (steps: seq<Step>, final: World)
    requires Fresh(w) && w.box == [] && w.nextUid == 1 && env.parses(raw)
    ensures Run(env, w, steps, final) && final.place.Idle?
    ensures final.store.evidence == map[env.hash(raw) := env.text(raw)] && final.store.jobs == {} && final.orphans == {env.hash(raw)}
    ensures forall more, later :: Run(env, final, more, later) ==>
              env.hash(raw) in later.store.evidence && env.hash(raw) !in later.store.jobs
  {
    var fetched := OneMailIsFetched(env, w, raw);
    final := RecordThenCrash(env, fetched, Normalized(env, Row(1, raw)));
    steps := [Arrives(raw, 0)] + ([AskStatus] + [Fetch]) + ([RecordNext] + [Crash]);
    RunAppends(env, w, [Arrives(raw, 0)] + ([AskStatus] + [Fetch]), fetched, [RecordNext] + [Crash], final);
    FreshIsSound(env, w);
    EveryRun(env, w, steps, final);
    forall more, later | Run(env, final, more, later)
      ensures env.hash(raw) in later.store.evidence && env.hash(raw) !in later.store.jobs
    {
      EveryRun(env, final, more, later);
    }
  }

  // ----- progress ---------------------------------------------------------

  /**
   A pass moves the cursor exactly when some message of its batch parses, and
   then strictly forward. A whole batch that does not parse stops the listener:
   the pass changes nothing, so the next one fetches the same rows.
   */
  lemma PassMovesIff(env: Env, s: Store, uidValidity: Epoch, box: seq<Row>, nextUid: Uid)
    requires Ordered(box, nextUid)
    requires s.cursor.Some? ==> s.cursor.value.uidValidity <= uidValidity
    ensures var rows := Batch(box, Since(s.cursor, uidValidity), env.batchSize);
            var t := Pass(env, s, uidValidity, box);
            if exists row :: row in rows && env.parses(row.raw)
            then && t.cursor.Some?
                 && (s.cursor.None? || s.cursor.value.uidValidity < t.cursor.value.uidValidity
                     || (s.cursor.value.uidValidity == t.cursor.value.uidValidity
                         && s.cursor.value.lastUid < t.cursor.value.lastUid))
            else t == s
  {
    var since := Since(s.cursor, uidValidity);
    var rows := Batch(box, since, env.batchSize);
    if row :| row in rows && env.parses(row.raw) {
      ParsedMember(env, rows, row);
      BatchStaysBelow(env, box, nextUid, since, env.batchSize);
      IngestedKeepsCursor(s, Parsed(env, rows));
    } else {
      NothingParses(env, rows);
    }
  }

  lemma {:induction false} NothingParses(env: Env, rows: seq<Row>)
    requires forall row :: row in rows ==> !env.parses(row.raw)
    ensures Parsed(env, rows) == []
  {
    if rows != [] {
      assert rows[0] in rows;
      NothingParses(env, rows[1..]);
    }
  }

  lemma {:induction false} IngestedKeepsCursor(s: Store, messages: seq<Message>)
    ensures IngestedAll(s, messages).cursor == s.cursor
    decreases |messages|
  {
    if messages != [] { IngestedKeepsCursor(Ingested(s, messages[0]), messages[1..]); }
  }

  /** The machine and the listener agree: left alone, its steps are one pass. */
  lemma UndisturbedPass(env: Env, w: World) returns (steps: seq<Step>, final: World)
    requires w.place.Idle?
    ensures Run(env, w, steps, final)
    ensures final.place.Idle? && final.store == Pass(env, w.store, w.epoch, w.box)
  {
    var asked := Next(env, w, AskStatus);
    var fetched := Next(env, asked, Fetch);
    if fetched.place.Idle? {
      final, steps := fetched, [Fetch];
      assert Run(env, fetched, steps[1..], final);
    } else {
      var rest;
      rest, final := WorkToTheEnd(env, fetched);
      steps := [Fetch] + rest;
      assert steps[1..] == rest;
      IngestedKeepsCursor(w.store, fetched.place.messages);
      assert fetched.place.messages[0..] == fetched.place.messages;
    }
    assert ([AskStatus] + steps)[1..] == steps;
    assert Run(env, asked, steps, final);
    steps := [AskStatus] + steps;
  }

  lemma {:induction false} WorkToTheEnd(env: Env, w: World) returns (steps: seq<Step>, final: World)
    requires w.place.Working? && w.place.done <= |w.place.messages| && w.place.messages != []
    ensures Run(env, w, steps, final) && final.place.Idle?
    ensures var t := IngestedAll(w.store, w.place.messages[w.place.done..]);
            final.store == t.(cursor := Advanced(t.cursor, w.place.uidValidity, HighestUid(w.place.messages)))
    decreases |w.place.messages| - w.place.done
  {
    var messages, done := w.place.messages, w.place.done;
    if done == |messages| {
      steps, final := [Commit], Next(env, w, Commit);
      StepFirst(env, w, Commit, [], final);
    } else {
      IngestOne(w.store, messages, done);
      var first, n := WorkOne(env, w);
      var rest;
      rest, final := WorkToTheEnd(env, n);
      steps := first + rest;
      RunAppends(env, w, first, n, rest, final);
    }
  }

  /** One message: known, or recorded and then enqueued. */
  lemma WorkOne(env: Env, w: World) returns (steps: seq<Step>, n: World)
    requires w.place.Working? && w.place.done < |w.place.messages|
    ensures Run(env, w, steps, n)
    ensures n.place == Working(w.place.uidValidity, w.place.messages, w.place.done + 1)
    ensures n.store == Ingested(w.store, w.place.messages[w.place.done])
  {
    var recorded := Next(env, w, RecordNext);
    if recorded.place.Working? {
      steps, n := [RecordNext], recorded;
      StepFirst(env, w, RecordNext, [], n);
    } else {
      n := Next(env, recorded, EnqueueJob);
      StepFirst(env, recorded, EnqueueJob, [], n);
      steps := [RecordNext] + [EnqueueJob];
      StepFirst(env, w, RecordNext, [EnqueueJob], n);
    }
  }

  // ----- a server that answers in any order ---------------------------------------

  lemma {:induction false} InSlot(row: Row, rows: seq<Row>, x: Row)
    ensures x in Slot(row, rows) <==> x == row || x in rows
  {
    if rows != [] && rows[|rows| - 1].uid > row.uid {
      InSlot(row, rows[..|rows| - 1], x);
      assert rows == rows[..|rows| - 1] + [rows[|rows| - 1]];
    }
  }

  lemma {:induction false} InByUid(rows: seq<Row>, x: Row)
    ensures x in ByUid(rows) <==> x in rows
  {
    if rows != [] {
      InByUid(rows[..|rows| - 1], x);
      InSlot(rows[|rows| - 1], ByUid(rows[..|rows| - 1]), x);
      assert rows == rows[..|rows| - 1] + [rows[|rows| - 1]];
    }
  }

  /** A batch holds rows of the answer above the cursor, whatever their order: what lies behind it is never fetched. */
  lemma BatchIsAbove(box: seq<Row>, since: Uid, limit: int, x: Row)
    requires x in Batch(box, since, limit)
    ensures x in box && x.uid > since
  {
    InByUid(Taken(box, since, limit), x);
    assert x in Above(box, since);
    AboveMember(box, since, x);
  }

  /** Recorded already, or with a hash that this batch records. */
  ghost predicate Covered(env: Env, s: Store, messages: seq<Message>, raw: string) {
    env.hash(raw) in s.evidence || exists m <- messages :: m.contentHash == env.hash(raw)
  }

  lemma {:induction false} IngestedHolds(s: Store, messages: seq<Message>, h: Hash)
    ensures h in IngestedAll(s, messages).evidence <==> h in s.evidence || exists m <- messages :: m.contentHash == h
    decreases |messages|
  {
    if messages != [] {
      IngestedHolds(Ingested(s, messages[0]), messages[1..], h);
      assert messages == [messages[0]] + messages[1..];
    }
  }

  /** Everything at or below the cursor of this epoch is recorded, or does not parse. */
  ghost predicate Lossless(env: Env, s: Store, uidValidity: Epoch, box: seq<Row>) {
    s.cursor.Some? && s.cursor.value.uidValidity == uidValidity ==>
      forall row <- box :: row.uid <= s.cursor.value.lastUid ==> Kept(env, s, row)
  }

  /** A row the batch passes over: above the cursor, not in the batch, and below what the batch commits. */
  ghost predicate PassedOver(rows: seq<Row>, since: Uid, top: Uid, row: Row) {
    since < row.uid <= top && row !in rows
  }

  lemma HighestIsAbove(env: Env, box: seq<Row>, since: Uid, limit: int)
    requires Parsed(env, Batch(box, since, limit)) != []
    ensures HighestUid(Parsed(env, Batch(box, since, limit))) > since
  {
    var top := HighestIsARow(env, Batch(box, since, limit));
    BatchIsAbove(box, since, limit, top);
  }

  lemma KeptByPassIff(env: Env, s: Store, rows: seq<Row>, row: Row)
    ensures var t := IngestedAll(s, Parsed(env, rows));
            Kept(env, t, row) <==> env.parses(row.raw) ==> Covered(env, s, Parsed(env, rows), row.raw)
    ensures row in rows ==> Kept(env, IngestedAll(s, Parsed(env, rows)), row)
    ensures Kept(env, s, row) ==> Kept(env, IngestedAll(s, Parsed(env, rows)), row)
  {
    IngestedHolds(s, Parsed(env, rows), env.hash(row.raw));
    if row in rows && env.parses(row.raw) { ParsedMember(env, rows, row); }
  }

  /**
   Exactly when a pass loses mail, in whatever order the server answers: when
   it passes over a message that parses and that neither the store nor the
   batch covers.
   */
  lemma PassLosesNothingIff(env: Env, s: Store, uidValidity: Epoch, box: seq<Row>)
    requires Lossless(env, s, uidValidity, box) && forall row <- box :: row.uid > 0
    ensures var since := Since(s.cursor, uidValidity);
            var rows := Batch(box, since, env.batchSize);
            var messages := Parsed(env, rows);
            Lossless(env, Pass(env, s, uidValidity, box), uidValidity, box)
            <==> messages == [] || forall row <- box ::
                   PassedOver(rows, since, HighestUid(messages), row) && env.parses(row.raw) ==> Covered(env, s, messages, row.raw)
  {
    var since := Since(s.cursor, uidValidity);
    var rows := Batch(box, since, env.batchSize);
    var messages := Parsed(env, rows);
    if messages != [] {
      HighestIsAbove(env, box, since, env.batchSize);
      IngestedKeepsCursor(s, messages);
      PassCommits(env, s, uidValidity, box, rows, messages);
      forall row <- box ensures Kept(env, IngestedAll(s, messages), row)
          <==> env.parses(row.raw) ==> Covered(env, s, messages, row.raw)
      {
        KeptByPassIff(env, s, rows, row);
      }
      forall row <- box | row.uid <= since || row in rows ensures Kept(env, IngestedAll(s, messages), row) {
        KeptByPassIff(env, s, rows, row);
      }
    }
  }

  lemma PassCommits(env: Env, s: Store, uidValidity: Epoch, box: seq<Row>, rows: seq<Row>, messages: seq<Message>)
    requires rows == Batch(box, Since(s.cursor, uidValidity), env.batchSize)
    requires messages == Parsed(env, rows) != [] && HighestUid(messages) > Since(s.cursor, uidValidity)
    ensures Pass(env, s, uidValidity, box)
         == IngestedAll(s, messages).(cursor := Some(Cursor(uidValidity, HighestUid(messages))))
  {
  }

  /** What is passed over stays lost: no later pass of the epoch, over whatever box, has it in its batch. */
  lemma PassedOverIsNeverFetched(env: Env, s: Store, box: seq<Row>, row: Row)
    requires s.cursor.Some? && row.uid <= s.cursor.value.lastUid
    ensures row !in Batch(box, Since(s.cursor, s.cursor.value.uidValidity), env.batchSize)
    ensures var t := Pass(env, s, s.cursor.value.uidValidity, box);
            t.cursor.Some? && t.cursor.value.uidValidity == s.cursor.value.uidValidity
            && row.uid <= t.cursor.value.lastUid
  {
    var since := Since(s.cursor, s.cursor.value.uidValidity);
    if row in Batch(box, since, env.batchSize) { BatchIsAbove(box, since, env.batchSize, row); }
    var messages := Parsed(env, Batch(box, since, env.batchSize));
    if messages != [] {
      HighestIsAbove(env, box, since, env.batchSize);
      PassCommits(env, s, s.cursor.value.uidValidity, box, Batch(box, since, env.batchSize), messages);
    }
  }

  /** A server that answers in order never makes a pass lose mail. */
  lemma OrderLosesNothing(env: Env, s: Store, uidValidity: Epoch, box: seq<Row>, nextUid: Uid)
    requires Ordered(box, nextUid) && Lossless(env, s, uidValidity, box)
    ensures Lossless(env, Pass(env, s, uidValidity, box), uidValidity, box)
  {
    var since := Since(s.cursor, uidValidity);
    var messages := Parsed(env, Batch(box, since, env.batchSize));
    PassLosesNothingIff(env, s, uidValidity, box);
    if messages != [] {
      forall row <- box ensures !PassedOver(Batch(box, since, env.batchSize), since, HighestUid(messages), row) {
        if since < row.uid <= HighestUid(messages) { BatchLeavesNoGap(env, box, nextUid, since, env.batchSize, row); }
      }
    }
  }

  /** A server that answers out of order can lose mail: the higher UID is committed first. */
  lemma DisorderLosesMail(env: Env, first: string, second: string)
    requires env.parses(first) && env.parses(second) && env.hash(first) != env.hash(second)
    requires env.batchSize == 1
    ensures var box := [Row(2, second), Row(1, first)];
            var t := Pass(env, Store(map[], {}, None), 7, box);
            && t.cursor == Some(Cursor(7, 2)) && !Kept(env, t, Row(1, first))
            && Batch(box, Since(t.cursor, 7), 1) == []
  {
    var box := [Row(2, second), Row(1, first)];
    var one := [Row(1, first)];
    assert box[1..] == one;
    AboveOne(Row(1, first), 0);
    AboveOne(Row(1, first), 2);
    assert box[..1] == [Row(2, second)];
    ByUidFixes([Row(2, second)]);
    ByUidFixes([]);
    var m := Normalized(env, Row(2, second));
    assert Parsed(env, [Row(2, second)]) == [m];
    IngestedOne(Store(map[], {}, None), m);
  }

  lemma AboveOne(row: Row, since: Uid)
    ensures Above([row], since) == if row.uid > since then [row] else []
  {
    assert [row][1..] == [];
  }

  lemma IngestedOne(s: Store, m: Message)
    ensures IngestedAll(s, [m]) == Ingested(s, m)
  {
    assert [m][1..] == [];
  }
}
