/** The anti-tamper chain of the audit table (`crates/core/src/audit.rs`, `migrations/0005_v20.sql`). The
    digest is any function of bytes into 64 lower-case hex digits; where a statement needs it to be free of collisions,
    it asks so for the bytes that were hashed, no others. The client hashes the text's own bytes, the server what its
    cast to `bytea` makes of the text. */
module AuditChain {
  import opened Text
  import opened Encoding
  import opened Principals
  import opened Runtime

  predicate IsHex64(s: string) {
    |s| == 64 && forall i :: 0 <= i < |s| ==> '0' <= s[i] <= '9' || 'a' <= s[i] <= 'f'
  }

  type Digest = s: string | IsHex64(s) witness seq(64, i => '0')

  type Hash = seq<Byte> -> Digest

  /** What a first row stores as its predecessor's hash, or a digest. */
  predicate IsPrev(s: string) { s == "" || IsHex64(s) }

  // ---------------------------------------------------------------- the canonical text

  function BitText(permBit: Option<nat>): string {
    match permBit case None => "" case Some(bit) => Decimal(bit)
  }

  function Payload(action: string, permBit: Option<nat>, tenantId: string, prev: string): string {
    action + "|" + BitText(permBit) + "|" + tenantId + "|" + prev
  }

  lemma {:induction false} DecimalIsDigits(n: nat)
    ensures Decimal(n) != "" && forall c <- Decimal(n) :: IsDigit(c)
  {
    if n >= 10 { DecimalIsDigits(n / 10); }
  }

  lemma {:induction false} DecimalInjective(m: nat, n: nat)
    requires Decimal(m) == Decimal(n)
    ensures m == n
  {
    DecimalIsDigits(m / 10);
    DecimalIsDigits(n / 10);
    var s := Decimal(m);
    if m >= 10 && n >= 10 {
      assert s[..|s| - 1] == Decimal(m / 10) == Decimal(n / 10);
      assert s[|s| - 1] == '0' + (m % 10) as char == '0' + (n % 10) as char;
      DecimalInjective(m / 10, n / 10);
    } else {
      assert m >= 10 ==> |s| > 1;
      assert n >= 10 ==> |s| > 1;
      assert s[0] == '0' + m as char == '0' + n as char;
    }
  }

  lemma BarInside(x: string, r: string, y: string, s: string)
    requires x + "|" + r == y + "|" + s && |x| < |y|
    ensures y[|x|] == '|' && r[|y| - |x| - 1] == '|'
  {
    assert (x + "|" + r)[|x|] == '|' && (y + "|" + s)[|y|] == '|';
  }

  lemma SplitAtBar(x: string, r: string, y: string, s: string)
    requires x + "|" + r == y + "|" + s && (('|' !in x && '|' !in y) || ('|' !in r && '|' !in s))
    ensures x == y && r == s
  {
    if |x| < |y| {
      BarInside(x, r, y, s);
    } else if |y| < |x| {
      BarInside(y, s, x, r);
    } else {
      var whole := x + "|" + r;
      assert x == whole[..|x|] && y == whole[..|y|];
      assert r == whole[|x| + 1..] && s == whole[|y| + 1..];
    }
  }

  lemma BitTextInjective(b: Option<nat>, c: Option<nat>)
    requires BitText(b) == BitText(c)
    ensures b == c
  {
    if b.Some? { DecimalIsDigits(b.value); }
    if c.Some? { DecimalIsDigits(c.value); }
    if b.Some? && c.Some? { DecimalInjective(b.value, c.value); }
  }

  lemma BitTextHasNoBar(b: Option<nat>)
    ensures '|' !in BitText(b)
  {
    if b.Some? { DecimalIsDigits(b.value); }
  }

  lemma PrevHasNoBar(p: string)
    requires IsPrev(p)
    ensures '|' !in p
  {
  }

  /** The text determines all four fields, whatever the tenant is called: bars in it move no boundary. */
  lemma PayloadInjective(a: string, b: Option<nat>, t: string, p: string, a': string, b': Option<nat>, t': string,
                         p': string)
    requires '|' !in a && '|' !in a' && IsPrev(p) && IsPrev(p')
    requires Payload(a, b, t, p) == Payload(a', b', t', p')
    ensures a == a' && b == b' && t == t' && p == p'
  {
    hide BitText, IsPrev;
    BitTextHasNoBar(b);
    BitTextHasNoBar(b');
    PrevHasNoBar(p);
    PrevHasNoBar(p');
    var rest, rest' := t + "|" + p, t' + "|" + p';
    assert Payload(a, b, t, p) == a + "|" + (BitText(b) + "|" + rest);
    assert Payload(a', b', t', p') == a' + "|" + (BitText(b') + "|" + rest');
    SplitAtBar(a, BitText(b) + "|" + rest, a', BitText(b') + "|" + rest');
    SplitAtBar(BitText(b), rest, BitText(b'), rest');
    SplitAtBar(t, p, t', p');
    BitTextInjective(b, b');
  }

  // ---------------------------------------------------------------- the chain of one history

  function EntryPayload(entry: AuditEntry, prev: string): string {
    Payload(entry.action.Name(), Some(entry.action.PermBit()), entry.tenantId, prev)
  }

  /** `AuditEvent::row_hash`. */
  function RowHash(hash: Hash, entry: AuditEntry, prev: string): Digest {
    hash(Encode(EntryPayload(entry, prev)))
  }

  /** The hash of the last row after recording `entries`; empty before the first. */
  function ChainHead(hash: Hash, entries: seq<AuditEntry>): (head: string)
    ensures IsPrev(head) && (head == "" <==> entries == [])
  {
    var n := |entries|;
    if n == 0 then "" else RowHash(hash, entries[n - 1], ChainHead(hash, entries[..n - 1]))
  }

  /** The bytes hashed on the way. */
  function Hashed(hash: Hash, entries: seq<AuditEntry>): set<seq<Byte>> {
    var n := |entries|;
    if n == 0 then {}
    else Hashed(hash, entries[..n - 1]) + {Encode(EntryPayload(entries[n - 1], ChainHead(hash, entries[..n - 1])))}
  }

  predicate CollisionFree(hash: Hash, inputs: set<seq<Byte>>) {
    forall x, y :: x in inputs && y in inputs && hash(x) == hash(y) ==> x == y
  }

  /** The part of an event the chain covers. */
  predicate SameCommitment(a: AuditEntry, b: AuditEntry) {
    a.action == b.action && a.tenantId == b.tenantId
  }

  lemma SamePayloadSameCommitment(a: AuditEntry, p: string, b: AuditEntry, q: string)
    requires IsPrev(p) && IsPrev(q)
    ensures Encode(EntryPayload(a, p)) == Encode(EntryPayload(b, q)) <==> SameCommitment(a, b) && p == q
  {
    hide Encode, Payload;
    if Encode(EntryPayload(a, p)) == Encode(EntryPayload(b, q)) {
      EncodeInjective(EntryPayload(a, p), EntryPayload(b, q));
    }
    AuditActionsDistinct(a.action, b.action);
    AuditActionsDistinct(b.action, a.action);
    if EntryPayload(a, p) == EntryPayload(b, q) {
      PayloadInjective(a.action.Name(), Some(a.action.PermBit()), a.tenantId, p,
                       b.action.Name(), Some(b.action.PermBit()), b.tenantId, q);
    }
  }

  /** Equal heads: equal histories, event by event, as far as action, right and tenant go. Who acted, whether
      the action was granted and the payload are not covered. */
  lemma {:induction false} HeadCommitsToHistory(hash: Hash, xs: seq<AuditEntry>, ys: seq<AuditEntry>)
    requires CollisionFree(hash, Hashed(hash, xs) + Hashed(hash, ys))
    ensures ChainHead(hash, xs) == ChainHead(hash, ys)
       <==> |xs| == |ys| && forall i :: 0 <= i < |xs| ==> SameCommitment(xs[i], ys[i])
    decreases |xs|
  {
    hide ChainHead, Hashed, EntryPayload, SameCommitment, Encode;
    var m, n := |xs|, |ys|;
    if m > 0 { HeadStep(hash, xs); }
    if n > 0 { HeadStep(hash, ys); }
    if m > 0 && n > 0 {
      SamePayloadSameCommitment(xs[m - 1], ChainHead(hash, xs[..m - 1]), ys[n - 1], ChainHead(hash, ys[..n - 1]));
      HeadCommitsToHistory(hash, xs[..m - 1], ys[..n - 1]);
    }
  }

  lemma HeadStep(hash: Hash, xs: seq<AuditEntry>)
    requires xs != []
    ensures var last, before := xs[|xs| - 1], xs[..|xs| - 1];
            && ChainHead(hash, xs) == hash(Encode(EntryPayload(last, ChainHead(hash, before))))
            && Hashed(hash, xs) == Hashed(hash, before) + {Encode(EntryPayload(last, ChainHead(hash, before)))}
  {
    hide EntryPayload, Encode;
  }

  // ---------------------------------------------------------------- the table

  datatype Row = Row(
    id: nat, action: string, permBit: Option<nat>, tenantId: string, detail: AuditEntry,
    prevHash: Option<string>, rowHash: Option<string>)

  /** SQL `coalesce(x, '')`. */
  function OrEmpty(x: Option<string>): string {
    match x case None => "" case Some(s) => s
  }

  function RowPayload(row: Row): string {
    Payload(row.action, row.permBit, row.tenantId, OrEmpty(row.prevHash))
  }

  /** What the client hashes for a row with these columns. */
  function ClientRowHash(hash: Hash, row: Row): Digest {
    hash(Encode(RowPayload(row)))
  }

  /** `audit_row_hash` applied to the columns of a row; `None` when the cast to `bytea` raises an error. */
  function SqlRowHash(hash: Hash, row: Row): Option<Digest> {
    match Bytea(RowPayload(row)) case None => None case Some(bytes) => Some(hash(bytes))
  }

  /** The rows of one tenant, oldest first. */
  function TenantRows(rows: seq<Row>, tenantId: string): seq<Row> {
    if rows == [] then []
    else
      var last := rows[|rows| - 1];
      TenantRows(rows[..|rows| - 1], tenantId) + if last.tenantId == tenantId then [last] else []
  }

  /** `SELECT row_hash ... ORDER BY id DESC LIMIT 1`, a missing or null hash read as empty. */
  function LastHash(rows: seq<Row>, tenantId: string): string {
    var chain := TenantRows(rows, tenantId);
    if chain == [] then "" else OrEmpty(chain[|chain| - 1].rowHash)
  }

  /** `audit_chain_before_insert`: fills what the client left null; `None` when hashing raises an error. */
  function BeforeInsert(hash: Hash, rows: seq<Row>, row: Row): Option<Row> {
    var anchored := if row.prevHash.None? then row.(prevHash := Some(LastHash(rows, row.tenantId))) else row;
    if anchored.rowHash.Some? then Some(anchored)
    else match SqlRowHash(hash, anchored) case None => None case Some(h) => Some(anchored.(rowHash := Some(h)))
  }

  function Unanchored(id: nat, entry: AuditEntry): Row {
    Row(id, entry.action.Name(), Some(entry.action.PermBit()), entry.tenantId, entry, None, None)
  }

  /** The row `record` sends. */
  function SentRow(hash: Hash, rows: seq<Row>, id: nat, entry: AuditEntry): Row {
    var prev := LastHash(rows, entry.tenantId);
    Unanchored(id, entry).(prevHash := Some(prev), rowHash := Some(RowHash(hash, entry, prev)))
  }

  /** A row that carries its hash goes in as it is, whatever it says. */
  lemma SentRowGoesIn(hash: Hash, rows: seq<Row>, id: nat, entry: AuditEntry)
    ensures BeforeInsert(hash, rows, SentRow(hash, rows, id, entry)) == Some(SentRow(hash, rows, id, entry))
  {
  }

  /** No row from `k` on is the tenant's. */
  ghost predicate NoneFrom(rows: seq<Row>, tenantId: string, k: nat) {
    forall j :: k <= j < |rows| ==> rows[j].tenantId != tenantId
  }

  /** The hash looked up is that of the tenant's latest row. */
  lemma {:induction false} LastHashExact(rows: seq<Row>, tenantId: string)
    ensures NoneFrom(rows, tenantId, 0) ==> LastHash(rows, tenantId) == ""
    ensures forall k :: 0 <= k < |rows| && rows[k].tenantId == tenantId && NoneFrom(rows, tenantId, k + 1) ==>
              LastHash(rows, tenantId) == OrEmpty(rows[k].rowHash)
    decreases |rows|
  {
    var n := |rows|;
    if n > 0 && rows[n - 1].tenantId != tenantId {
      var before := rows[..n - 1];
      LastHashExact(before, tenantId);
      assert TenantRows(rows, tenantId) == TenantRows(before, tenantId);
      forall k | 0 <= k < n && rows[k].tenantId == tenantId && NoneFrom(rows, tenantId, k + 1)
        ensures LastHash(rows, tenantId) == OrEmpty(rows[k].rowHash)
      {
        assert before[k] == rows[k] && NoneFrom(before, tenantId, k + 1);
      }
      assert NoneFrom(rows, tenantId, 0) ==> NoneFrom(before, tenantId, 0);
    }
  }

  /** The trigger fills what is null and changes nothing else: the previous hash from the tenant's latest row, the row's
      own from the columns as they go in. It fails exactly when that hash is needed and the cast raises an error. */
  lemma InsertFillsNulls(hash: Hash, rows: seq<Row>, row: Row)
    ensures var prev := if row.prevHash.Some? then row.prevHash else Some(LastHash(rows, row.tenantId));
            var computed := SqlRowHash(hash, row.(prevHash := prev));
            match BeforeInsert(hash, rows, row)
            case None => row.rowHash.None? && computed.None?
            case Some(stored) =>
              && stored.id == row.id && stored.action == row.action && stored.permBit == row.permBit
              && stored.tenantId == row.tenantId && stored.detail == row.detail && stored.prevHash == prev
              && (row.rowHash.Some? ==> stored.rowHash == row.rowHash)
              && (row.rowHash.None? ==> computed.Some? && stored.rowHash == Some(computed.value))
  {
    hide SqlRowHash, LastHash;
  }

  /** The stored hash is the one the server computes from the row's own columns. */
  predicate Consistent(hash: Hash, row: Row) {
    var computed := SqlRowHash(hash, row);
    computed.Some? && row.rowHash == Some(computed.value)
  }

  /** The stored hash is the one the client computes from the row's own columns. */
  predicate Attested(hash: Hash, row: Row) {
    row.rowHash == Some(ClientRowHash(hash, row))
  }

  /** Row `i` points at the row before it. */
  predicate PointsBack(chain: seq<Row>, i: nat)
    requires i < |chain|
  {
    chain[i].prevHash == Some(if i == 0 then "" else OrEmpty(chain[i - 1].rowHash))
  }

  predicate Linked(hash: Hash, chain: seq<Row>) {
    && (forall row <- chain :: Attested(hash, row))
    && (forall i :: 0 <= i < |chain| ==> PointsBack(chain, i))
  }

  /** The table after recording `entries` one after another. */
  function Recorded(hash: Hash, entries: seq<AuditEntry>): (rows: seq<Row>)
    ensures |rows| == |entries|
  {
    var n := |entries|;
    if n == 0 then []
    else
      var rows := Recorded(hash, entries[..n - 1]);
      rows + [SentRow(hash, rows, n - 1, entries[n - 1])]
  }

  class AuditTable {
    const hash: Hash
    var rows: seq<Row>
    ghost var entries: seq<AuditEntry>

    ghost predicate Valid()
      reads this
    {
      rows == Recorded(hash, entries)
    }

    constructor (hash: Hash)
      ensures Valid() && entries == [] && this.hash == hash
    {
      this.hash := hash;
      rows, entries := [], [];
    }

    /** `PgAuditSink::record`, not interleaved with other writers. */
    method Record(entry: AuditEntry)
      requires Valid()
      modifies this
      ensures Valid() && entries == old(entries) + [entry]
      ensures rows == old(rows) + [SentRow(hash, old(rows), |old(rows)|, entry)]
    {
      var prev := LastHash(rows, entry.tenantId);
      var rowHash := RowHash(hash, entry, prev);
      var row := Row(|rows|, entry.action.Name(), Some(entry.action.PermBit()), entry.tenantId, entry, Some(prev),
                     Some(rowHash));
      assert (entries + [entry])[..|entries|] == entries;
      match BeforeInsert(hash, rows, row) {
        case Some(stored) => rows, entries := rows + [stored], entries + [entry];
      }
    }
  }

  function ByTenant(entries: seq<AuditEntry>, tenantId: string): seq<AuditEntry> {
    if entries == [] then []
    else
      var last := entries[|entries| - 1];
      ByTenant(entries[..|entries| - 1], tenantId) + if last.tenantId == tenantId then [last] else []
  }

  lemma LinkedAppend(hash: Hash, chain: seq<Row>, row: Row)
    requires Linked(hash, chain) && Attested(hash, row)
    requires row.prevHash == Some(if chain == [] then "" else OrEmpty(chain[|chain| - 1].rowHash))
    ensures Linked(hash, chain + [row])
  {
    hide Attested;
    var longer := chain + [row];
    forall i | 0 <= i < |longer| ensures PointsBack(longer, i) {
      assert i < |chain| ==> PointsBack(chain, i);
    }
  }

  lemma SentRowAttested(hash: Hash, rows: seq<Row>, id: nat, entry: AuditEntry)
    ensures Attested(hash, SentRow(hash, rows, id, entry))
  {
  }

  lemma SentRowShape(hash: Hash, rows: seq<Row>, id: nat, entry: AuditEntry)
    ensures var row, prev := SentRow(hash, rows, id, entry), LastHash(rows, entry.tenantId);
            && row.tenantId == entry.tenantId && row.prevHash == Some(prev)
            && row.rowHash == Some(RowHash(hash, entry, prev))
  {
  }

  lemma RecordedStep(hash: Hash, entries: seq<AuditEntry>, entry: AuditEntry)
    ensures var rows := Recorded(hash, entries);
            Recorded(hash, entries + [entry]) == rows + [SentRow(hash, rows, |rows|, entry)]
  {
    hide SentRow;
    assert (entries + [entry])[..|entries|] == entries;
  }

  lemma TenantRowsStep(rows: seq<Row>, row: Row, tenantId: string)
    ensures TenantRows(rows + [row], tenantId)
         == TenantRows(rows, tenantId) + if row.tenantId == tenantId then [row] else []
  {
    assert (rows + [row])[..|rows|] == rows;
  }

  /** However the tenants interleave, each tenant's rows form a chain, and its head is the head of that tenant's
      own history. */
  lemma {:induction false} TenantChains(hash: Hash, entries: seq<AuditEntry>, tenantId: string)
    ensures Linked(hash, TenantRows(Recorded(hash, entries), tenantId))
    ensures LastHash(Recorded(hash, entries), tenantId) == ChainHead(hash, ByTenant(entries, tenantId))
    decreases |entries|
  {
    hide Linked, ChainHead, Recorded, TenantRows, SentRow, LastHash;
    var n := |entries|;
    if n == 0 {
      EmptyChains(hash, tenantId);
    } else {
      var before, entry := entries[..n - 1], entries[n - 1];
      TenantChains(hash, before, tenantId);
      assert entries == before + [entry];
      RecordedStep(hash, before, entry);
      TenantStep(hash, Recorded(hash, before), entry, ByTenant(before, tenantId), tenantId);
    }
  }

  lemma EmptyChains(hash: Hash, tenantId: string)
    ensures Linked(hash, TenantRows(Recorded(hash, []), tenantId))
    ensures LastHash(Recorded(hash, []), tenantId) == "" == ChainHead(hash, [])
  {
  }

  lemma TenantStep(hash: Hash, rows: seq<Row>, entry: AuditEntry, history: seq<AuditEntry>, tenantId: string)
    requires Linked(hash, TenantRows(rows, tenantId)) && LastHash(rows, tenantId) == ChainHead(hash, history)
    ensures var more := rows + [SentRow(hash, rows, |rows|, entry)];
            var longer := history + if entry.tenantId == tenantId then [entry] else [];
            Linked(hash, TenantRows(more, tenantId)) && LastHash(more, tenantId) == ChainHead(hash, longer)
  {
    hide Linked, ChainHead, TenantRows, SentRow, RowHash, Attested;
    var row := SentRow(hash, rows, |rows|, entry);
    SentRowShape(hash, rows, |rows|, entry);
    TenantRowsStep(rows, row, tenantId);
    if entry.tenantId == tenantId {
      SentRowAttested(hash, rows, |rows|, entry);
      LinkedAppend(hash, TenantRows(rows, tenantId), row);
      HeadExtends(hash, history, entry);
    } else {
      assert TenantRows(rows, tenantId) + [] == TenantRows(rows, tenantId) && history + [] == history;
    }
  }

  lemma HeadExtends(hash: Hash, entries: seq<AuditEntry>, entry: AuditEntry)
    ensures ChainHead(hash, entries + [entry]) == RowHash(hash, entry, ChainHead(hash, entries))
  {
    assert (entries + [entry])[..|entries|] == entries;
  }

  /** Two tables whose last hashes for a tenant agree hold the same events of that tenant, in the same order. */
  lemma TenantHeadCommits(hash: Hash, xs: seq<AuditEntry>, ys: seq<AuditEntry>, tenantId: string)
    requires CollisionFree(hash, Hashed(hash, ByTenant(xs, tenantId)) + Hashed(hash, ByTenant(ys, tenantId)))
    ensures var a, b := ByTenant(xs, tenantId), ByTenant(ys, tenantId);
            LastHash(Recorded(hash, xs), tenantId) == LastHash(Recorded(hash, ys), tenantId)
            <==> |a| == |b| && forall i :: 0 <= i < |a| ==> SameCommitment(a[i], b[i])
  {
    TenantChains(hash, xs, tenantId);
    TenantChains(hash, ys, tenantId);
    HeadCommitsToHistory(hash, ByTenant(xs, tenantId), ByTenant(ys, tenantId));
  }

  // ---------------------------------------------------------------- verification

  datatype Finding = Finding(badId: nat, reason: string)

  function Mismatched(hash: Hash, rows: seq<Row>): seq<Finding> {
    if rows == [] then []
    else
      (if Consistent(hash, rows[0]) then [] else [Finding(rows[0].id, "row_hash mismatch")])
      + Mismatched(hash, rows[1..])
  }

  function Missing(rows: seq<Row>): seq<Finding> {
    if rows == [] then []
    else (if rows[0].rowHash.None? then [Finding(rows[0].id, "missing row_hash")] else []) + Missing(rows[1..])
  }

  /** `audit_verify_chain`; `None` when the cast of some row's text raises an error, which fails the whole query. */
  function VerifyChain(hash: Hash, rows: seq<Row>): Option<seq<Finding>> {
    if exists row :: row in rows && SqlRowHash(hash, row).None? then None
    else Some(Mismatched(hash, rows) + Missing(rows))
  }

  /** Verification looks at each row alone, and finds nothing exactly when the server can hash every row and gets what
      is stored. */
  lemma VerifySilentIffConsistent(hash: Hash, rows: seq<Row>)
    ensures VerifyChain(hash, rows) == Some([]) <==> forall row <- rows :: Consistent(hash, row)
  {
    hide SqlRowHash;
    MismatchesEmptyIff(hash, rows);
  }

  lemma {:induction false} MismatchesEmptyIff(hash: Hash, rows: seq<Row>)
    ensures Mismatched(hash, rows) + Missing(rows) == [] <==> forall row <- rows :: Consistent(hash, row)
  {
    hide SqlRowHash;
    if rows != [] {
      MismatchesEmptyIff(hash, rows[1..]);
      assert rows == [rows[0]] + rows[1..];
      assert Consistent(hash, rows[0]) ==> rows[0].rowHash.Some?;
    }
  }

  /** A table put together from rows of an accepted table, with rows dropped, repeated or reordered at will, is
      accepted too: the promise that deletions and reorderings are found does not hold. */
  lemma VerifyMissesDeletionAndReordering(hash: Hash, rows: seq<Row>, left: seq<Row>)
    requires VerifyChain(hash, rows) == Some([]) && forall row <- left :: row in rows
    ensures VerifyChain(hash, left) == Some([])
  {
    hide VerifyChain, Consistent;
    VerifySilentIffConsistent(hash, rows);
    VerifySilentIffConsistent(hash, left);
  }

  // ---------------------------------------------------------------- client and server

  /** The byte strings that client and server may hash for a row. */
  function BothReadings(row: Row): set<seq<Byte>> {
    {Encode(RowPayload(row))} + match Bytea(RowPayload(row)) case None => {} case Some(bytes) => {bytes}
  }

  function AllReadings(rows: seq<Row>): set<seq<Byte>> {
    set row, bytes | row in rows && bytes in BothReadings(row) :: bytes
  }

  lemma BackslashInPayload(action: AuditAction, tenantId: string, prev: string)
    requires IsPrev(prev)
    ensures '\\' in Payload(action.Name(), Some(action.PermBit()), tenantId, prev) <==> '\\' in tenantId
  {
    DecimalIsDigits(action.PermBit());
    NoBackslashInName(action);
    var name, bit := action.Name(), Decimal(action.PermBit());
    assert '\\' !in bit && '\\' !in prev && '\\' !in "|";
    assert Payload(name, Some(action.PermBit()), tenantId, prev) == name + "|" + bit + "|" + tenantId + "|" + prev;
  }

  lemma NoBackslashInName(action: AuditAction)
    ensures '\\' !in action.Name() && action.Name() != ""
  {
  }

  /** Client and server agree on a row exactly when its text holds no backslash. */
  lemma ConsistentIffPlain(hash: Hash, row: Row)
    requires Attested(hash, row) && CollisionFree(hash, BothReadings(row))
    ensures Consistent(hash, row) <==> '\\' !in RowPayload(row)
  {
    hide Bytea, Encode;
    ByteaExactIff(RowPayload(row));
  }

  /** What recording sends for an entry after others. */
  function SentAfter(hash: Hash, entries: seq<AuditEntry>, entry: AuditEntry): Row {
    SentRow(hash, Recorded(hash, entries), |entries|, entry)
  }

  lemma SentAfterPayload(hash: Hash, entries: seq<AuditEntry>, entry: AuditEntry)
    ensures var row := SentAfter(hash, entries, entry);
            Attested(hash, row) && ('\\' in RowPayload(row) <==> '\\' in entry.tenantId)
  {
    var rows := Recorded(hash, entries);
    SentRowAttested(hash, rows, |entries|, entry);
    TenantChains(hash, entries, entry.tenantId);
    BackslashInPayload(entry.action, entry.tenantId, LastHash(rows, entry.tenantId));
  }

  /** A row inserted without hashes gets from the server those the client would have sent, exactly when the tenant's
      name holds no backslash. */
  lemma ServerAgreesWithClientIff(hash: Hash, entries: seq<AuditEntry>, entry: AuditEntry)
    requires CollisionFree(hash, BothReadings(SentAfter(hash, entries, entry)))
    ensures BeforeInsert(hash, Recorded(hash, entries), Unanchored(|entries|, entry))
        == Some(SentAfter(hash, entries, entry))
       <==> '\\' !in entry.tenantId
  {
    hide *;
    SentAfterPayload(hash, entries, entry);
    ConsistentIffPlain(hash, SentAfter(hash, entries, entry));
    FilledIffConsistent(hash, entries, entry);
  }

  lemma FilledIffConsistent(hash: Hash, entries: seq<AuditEntry>, entry: AuditEntry)
    ensures BeforeInsert(hash, Recorded(hash, entries), Unanchored(|entries|, entry))
        == Some(SentAfter(hash, entries, entry))
       <==> Consistent(hash, SentAfter(hash, entries, entry))
  {
    hide Bytea, LastHash, Payload, Recorded;
  }

  /** Every table the client recorded is accepted exactly when no tenant's name holds a backslash. */
  lemma RecordedRowsVerifyIff(hash: Hash, entries: seq<AuditEntry>)
    requires CollisionFree(hash, AllReadings(Recorded(hash, entries)))
    ensures VerifyChain(hash, Recorded(hash, entries)) == Some([]) <==> forall e <- entries :: '\\' !in e.tenantId
  {
    hide VerifyChain, Consistent, CollisionFree;
    RecordedConsistentIff(hash, entries);
    VerifySilentIffConsistent(hash, Recorded(hash, entries));
  }

  lemma {:induction false} RecordedConsistentIff(hash: Hash, entries: seq<AuditEntry>)
    requires CollisionFree(hash, AllReadings(Recorded(hash, entries)))
    ensures (forall row <- Recorded(hash, entries) :: Consistent(hash, row))
       <==> forall e <- entries :: '\\' !in e.tenantId
    decreases |entries|
  {
    hide Consistent, SentRow, RowPayload, Attested, BothReadings;
    var n := |entries|;
    if n > 0 {
      var before, entry := entries[..n - 1], entries[n - 1];
      var rows, row := Recorded(hash, before), SentAfter(hash, before, entry);
      assert entries == before + [entry] && Recorded(hash, entries) == rows + [row];
      assert row in rows + [row];
      SentAfterPayload(hash, before, entry);
      ConsistentIffPlain(hash, row);
      RecordedConsistentIff(hash, before);
    }
  }

  /** One row of a tenant called `a\b` makes the verification query fail; one of a tenant with two backslashes there
      is reported although nobody touched it. */
  lemma BackslashTenantsFail(hash: Hash, one: AuditEntry, two: AuditEntry)
    requires one.tenantId == "a\\b" && two.tenantId == "a\\\\b"
    requires CollisionFree(hash, AllReadings(Recorded(hash, [two])))
    ensures VerifyChain(hash, Recorded(hash, [one])) == None
    ensures VerifyChain(hash, Recorded(hash, [two])) == Some([Finding(0, "row_hash mismatch")])
  {
    hide Recorded, CollisionFree, RowPayload, EntryPayload;
    var rowOne := FirstRow(hash, one);
    var rowTwo := FirstRow(hash, two);
    FirstPayload(one, "\\");
    FirstPayload(two, "\\\\");
    RecordedConsistentIff(hash, [two]);
    assert two in [two] && '\\' in two.tenantId;
    OneRowVerified(hash, rowOne);
    OneRowVerified(hash, rowTwo);
  }

  lemma OneRowVerified(hash: Hash, row: Row)
    requires row.rowHash.Some?
    ensures VerifyChain(hash, [row])
         == if Bytea(RowPayload(row)).None? then None
            else Some(if Consistent(hash, row) then [] else [Finding(row.id, "row_hash mismatch")])
    ensures (forall r <- [row] :: Consistent(hash, r)) <==> Consistent(hash, row)
  {
    hide SqlRowHash;
    assert row in [row] && [row][1..] == [];
    assert Mismatched(hash, []) == [] && Missing([]) == [];
    assert Mismatched(hash, [row]) == if Consistent(hash, row) then [] else [Finding(row.id, "row_hash mismatch")];
    assert Missing([row]) == [];
    assert SqlRowHash(hash, row).None? <==> Bytea(RowPayload(row)).None? by { HashableIff(hash, row); }
  }

  lemma HashableIff(hash: Hash, row: Row)
    ensures SqlRowHash(hash, row).None? <==> Bytea(RowPayload(row)).None?
  {
  }

  lemma FirstRow(hash: Hash, entry: AuditEntry) returns (row: Row)
    ensures Recorded(hash, [entry]) == [row]
    ensures row.id == 0 && row.rowHash.Some? && RowPayload(row) == EntryPayload(entry, "")
  {
    hide Payload, Encode;
    row := SentRow(hash, [], 0, entry);
    assert LastHash([], entry.tenantId) == "" by { assert TenantRows([], entry.tenantId) == []; }
    RecordedStep(hash, [], entry);
    assert [] + [entry] == [entry] && Recorded(hash, []) == [];
  }

  /** The text of a first row whose tenant is `a`, some backslashes, `b`. */
  lemma FirstPayload(entry: AuditEntry, middle: string)
    requires entry.tenantId == "a" + middle + "b" && (middle == "\\" || middle == "\\\\")
    ensures Bytea(EntryPayload(entry, "")).None? <==> middle == "\\"
  {
    hide Bytea, Decimal;
    DecimalIsDigits(entry.action.PermBit());
    NoBackslashInName(entry.action);
    var before := entry.action.Name() + "|" + Decimal(entry.action.PermBit()) + "|a";
    assert EntryPayload(entry, "") == before + middle + "b|";
    BackslashRead(before, "b|");
  }

  // ---------------------------------------------------------------- what comparing neighbours would find

  function RowPayloads(rows: seq<Row>): set<seq<Byte>> {
    set row <- rows :: Encode(RowPayload(row))
  }

  /** Neighbouring rows of a chain never carry the same hash. */
  lemma {:induction false} HashesMove(hash: Hash, chain: seq<Row>, k: nat)
    requires Linked(hash, chain) && CollisionFree(hash, RowPayloads(chain)) && k < |chain|
    requires forall row <- chain :: '|' !in row.action
    ensures OrEmpty(chain[k].rowHash) != if k == 0 then "" else OrEmpty(chain[k - 1].rowHash)
  {
    hide Encode, Payload;
    if k > 0 {
      HashesMove(hash, chain, k - 1);
      var row, before := chain[k], chain[k - 1];
      assert row in chain && before in chain;
      assert PointsBack(chain, k) && PointsBack(chain, k - 1);
      assert Attested(hash, row) && Attested(hash, before);
      if OrEmpty(row.rowHash) == OrEmpty(before.rowHash) {
        assert Encode(RowPayload(row)) in RowPayloads(chain) && Encode(RowPayload(before)) in RowPayloads(chain);
        EncodeInjective(RowPayload(row), RowPayload(before));
        PrevIsDigest(hash, chain, k);
        PrevIsDigest(hash, chain, k - 1);
        PayloadInjective(row.action, row.permBit, row.tenantId, OrEmpty(row.prevHash),
                         before.action, before.permBit, before.tenantId, OrEmpty(before.prevHash));
      }
    }
  }

  lemma PrevIsDigest(hash: Hash, chain: seq<Row>, k: nat)
    requires Linked(hash, chain) && k < |chain|
    ensures IsPrev(OrEmpty(chain[k].prevHash))
  {
    assert PointsBack(chain, k);
    if k > 0 {
      assert Attested(hash, chain[k - 1]);
      var digest: Digest := ClientRowHash(hash, chain[k - 1]);
      assert IsHex64(digest);
    }
  }

  function Without(chain: seq<Row>, k: nat): seq<Row>
    requires k < |chain|
  {
    chain[..k] + chain[k + 1..]
  }

  lemma LinkedPrefix(hash: Hash, chain: seq<Row>, k: nat)
    requires Linked(hash, chain) && k <= |chain|
    ensures Linked(hash, chain[..k])
  {
    hide Attested;
    forall i | 0 <= i < k ensures PointsBack(chain[..k], i) {
      assert PointsBack(chain, i);
    }
  }

  /** Comparing each row with its neighbour finds the deletion of any row except the newest. */
  lemma DeletionBreaksLinkUnlessLast(hash: Hash, chain: seq<Row>, k: nat)
    requires Linked(hash, chain) && CollisionFree(hash, RowPayloads(chain)) && k < |chain|
    requires forall row <- chain :: '|' !in row.action
    ensures Linked(hash, Without(chain, k)) <==> k == |chain| - 1
  {
    var left := Without(chain, k);
    if k < |chain| - 1 {
      HashesMove(hash, chain, k);
      assert left[k] == chain[k + 1] && (k > 0 ==> left[k - 1] == chain[k - 1]);
      assert PointsBack(chain, k + 1);
      assert Linked(hash, left) ==> PointsBack(left, k);
    } else {
      assert left == chain[..k];
      LinkedPrefix(hash, chain, k);
    }
  }
}
