/** What `audit_verify_chain` makes of a row that was changed after it had been accepted
    (`migrations/0005_v20.sql`). */
module AuditTampering {
  import opened Text
  import opened Encoding
  import opened Principals
  import opened Runtime
  import opened AuditChain

  // ---------------------------------------------------------------- what the query lists

  datatype Fault = Wrong | Missing

  predicate IsFault(hash: Hash, fault: Fault, row: Row) {
    if fault == Wrong then !Consistent(hash, row) else row.rowHash.None?
  }

  function Reason(fault: Fault): string {
    if fault == Wrong then "row_hash mismatch" else "missing row_hash"
  }

  predicate Within(rows: seq<Row>, at: seq<nat>) {
    forall i :: 0 <= i < |at| ==> at[i] < |rows|
  }

  /** `at` are, in order, the positions of exactly the rows with this fault. */
  ghost predicate Positions(hash: Hash, rows: seq<Row>, fault: Fault, at: seq<nat>) {
    && Within(rows, at)
    && (forall i, j :: 0 <= i < j < |at| ==> at[i] < at[j])
    && (forall k: nat :: k in at <==> k < |rows| && IsFault(hash, fault, rows[k]))
  }

  /** One finding for each of the positions. */
  function Findings(rows: seq<Row>, at: seq<nat>, reason: string): seq<Finding>
    requires Within(rows, at)
  {
    seq(|at|, i requires 0 <= i < |at| => Finding(rows[at[i]].id, reason))
  }

  function Later(at: seq<nat>): (r: seq<nat>)
    ensures |r| == |at|
  {
    seq(|at|, i requires 0 <= i < |at| => at[i] + 1)
  }

  lemma LaterMembers(at: seq<nat>)
    ensures forall k: nat :: k in Later(at) <==> k > 0 && k - 1 in at
  {
    forall k: nat | k > 0 && k - 1 in at ensures k in Later(at) {
      var i :| 0 <= i < |at| && at[i] == k - 1;
      assert Later(at)[i] == k;
    }
  }

  /** Positions in a table, from those in the table without its first row. */
  lemma PositionsFront(hash: Hash, rows: seq<Row>, fault: Fault, at: seq<nat>)
    requires rows != [] && Positions(hash, rows[1..], fault, at)
    ensures Positions(hash, rows, fault, (if IsFault(hash, fault, rows[0]) then [0] else []) + Later(at))
  {
    hide IsFault;
    var head: seq<nat> := if IsFault(hash, fault, rows[0]) then [0] else [];
    var all := head + Later(at);
    LaterMembers(at);
    forall k: nat ensures k in all <==> k < |rows| && IsFault(hash, fault, rows[k]) {
      assert k in all <==> k in head || k in Later(at);
      if k > 0 {
        assert k - 1 in at <==> k - 1 < |rows[1..]| && IsFault(hash, fault, rows[1..][k - 1]);
      }
    }
    assert forall i :: 0 <= i < |at| ==> Later(at)[i] > 0;
  }

  lemma PositionsWithin(hash: Hash, rows: seq<Row>, fault: Fault, at: seq<nat>)
    requires Positions(hash, rows, fault, at)
    ensures Within(rows, at)
  {
  }

  lemma FindingsFront(rows: seq<Row>, at: seq<nat>, reason: string)
    requires rows != [] && Within(rows[1..], at)
    ensures Within(rows, Later(at)) && Findings(rows, Later(at), reason) == Findings(rows[1..], at, reason)
  {
  }

  function Listed(hash: Hash, rows: seq<Row>, fault: Fault): seq<Finding> {
    if fault == Wrong then Mismatched(hash, rows) else AuditChain.Missing(rows)
  }

  lemma ListedFront(hash: Hash, rows: seq<Row>, fault: Fault)
    requires rows != []
    ensures Listed(hash, rows, fault)
         == (if IsFault(hash, fault, rows[0]) then [Finding(rows[0].id, Reason(fault))] else [])
            + Listed(hash, rows[1..], fault)
    ensures Listed(hash, [], fault) == []
  {
    hide Consistent;
  }

  lemma {:induction false} ListedExact(hash: Hash, rows: seq<Row>, fault: Fault) returns (at: seq<nat>)
    ensures Positions(hash, rows, fault, at) && Listed(hash, rows, fault) == Findings(rows, at, Reason(fault))
    decreases |rows|
  {
    hide IsFault, Listed, Reason, Positions;
    at := [];
    if rows == [] {
      NoneListed(hash, fault);
    } else {
      var rest := ListedExact(hash, rows[1..], fault);
      ListedFront(hash, rows, fault);
      PositionsFront(hash, rows, fault, rest);
      PositionsWithin(hash, rows[1..], fault, rest);
      FindingsFront(rows, rest, Reason(fault));
      if IsFault(hash, fault, rows[0]) {
        at := [0] + Later(rest);
        assert Findings(rows, at, Reason(fault))
            == [Finding(rows[0].id, Reason(fault))] + Findings(rows, Later(rest), Reason(fault));
      } else {
        at := Later(rest);
        assert [] + Later(rest) == Later(rest);
      }
    }
  }

  lemma NoneListed(hash: Hash, fault: Fault)
    ensures Listed(hash, [], fault) == [] && Positions(hash, [], fault, [])
  {
  }

  /** The whole answer of the query, when it has one: the rows whose stored hash is not what the server computes, in the
      order of the table, and then the rows without a hash, which are listed a second time. */
  lemma QueryLists(hash: Hash, rows: seq<Row>) returns (wrong: seq<nat>, missing: seq<nat>)
    ensures Positions(hash, rows, Wrong, wrong) && Positions(hash, rows, Missing, missing)
    ensures forall k <- missing :: k in wrong
    ensures VerifyChain(hash, rows)
         == if exists row <- rows :: Bytea(RowPayload(row)).None? then None
            else Some(Findings(rows, wrong, "row_hash mismatch") + Findings(rows, missing, "missing row_hash"))
  {
    hide Bytea, RowPayload, Mismatched, AuditChain.Missing;
    wrong := ListedExact(hash, rows, Wrong);
    missing := ListedExact(hash, rows, Missing);
    forall row: Row ensures SqlRowHash(hash, row).None? <==> Bytea(RowPayload(row)).None? {
      HashableIff(hash, row);
    }
    forall k | k in missing ensures k in wrong {
      assert IsFault(hash, Missing, rows[k]);
    }
  }

  // ---------------------------------------------------------------- one altered row among accepted ones

  /** All rows but possibly row `i` are accepted. */
  ghost predicate OthersConsistent(hash: Hash, rows: seq<Row>, i: nat) {
    forall j :: 0 <= j < |rows| && j != i ==> Consistent(hash, rows[j])
  }

  lemma {:induction false} OneSuspect(hash: Hash, rows: seq<Row>, i: nat)
    requires i < |rows| && OthersConsistent(hash, rows, i) && rows[i].rowHash.Some?
    ensures Mismatched(hash, rows) + AuditChain.Missing(rows)
         == if Consistent(hash, rows[i]) then [] else [Finding(rows[i].id, "row_hash mismatch")]
  {
    hide SqlRowHash;
    var rest := rows[1..];
    assert rows == [rows[0]] + rest;
    if i == 0 {
      forall row | row in rest ensures Consistent(hash, row) {
        var k :| 0 <= k < |rest| && rest[k] == row;
        assert rows[k + 1] == row;
      }
      MismatchesEmptyIff(hash, rest);
    } else {
      assert Consistent(hash, rows[0]);
      OneSuspect(hash, rest, i - 1);
    }
  }

  lemma OneUnhashable(hash: Hash, rows: seq<Row>, i: nat)
    requires i < |rows| && OthersConsistent(hash, rows, i)
    ensures (exists row :: row in rows && SqlRowHash(hash, row).None?) <==> Bytea(RowPayload(rows[i])).None?
  {
    hide Bytea, RowPayload;
    HashableIff(hash, rows[i]);
    assert rows[i] in rows;
  }

  /** A row of an accepted table is changed under its stored hash. The query fails when the new text has no bytes; it
      reports that row when the bytes are others than before, and nothing else ever. */
  lemma AlteredRowReportedIff(hash: Hash, rows: seq<Row>, i: nat, altered: Row)
    requires VerifyChain(hash, rows) == Some([]) && i < |rows| && altered.rowHash == rows[i].rowHash
    requires CollisionFree(hash, BothReadings(rows[i]) + BothReadings(altered))
    ensures VerifyChain(hash, rows[i := altered])
         == match Bytea(RowPayload(altered))
            case None => None
            case Some(bytes) =>
              Some(if Bytea(RowPayload(rows[i])) == Some(bytes) then []
                   else [Finding(altered.id, "row_hash mismatch")])
  {
    hide Mismatched, AuditChain.Missing, Bytea, RowPayload;
    VerifySilentIffConsistent(hash, rows);
    var changed := rows[i := altered];
    assert rows[i] in rows && Consistent(hash, rows[i]);
    OneSuspect(hash, changed, i);
    OneUnhashable(hash, changed, i);
  }

  // ---------------------------------------------------------------- texts without escapes

  /** The columns under the hash; the identity of the row and its details are not among them. */
  predicate SameCovered(a: Row, b: Row) {
    a.action == b.action && a.permBit == b.permBit && a.tenantId == b.tenantId
    && OrEmpty(a.prevHash) == OrEmpty(b.prevHash)
  }

  /** No bar in the action, no backslash anywhere, and the previous hash is one. */
  predicate Plain(row: Row) {
    '|' !in row.action && IsPrev(OrEmpty(row.prevHash)) && '\\' !in RowPayload(row)
  }

  lemma PlainBytes(a: Row, b: Row)
    requires Plain(a) && Plain(b)
    ensures Bytea(RowPayload(a)) == Some(Encode(RowPayload(a)))
    ensures Bytea(RowPayload(a)) == Bytea(RowPayload(b)) <==> SameCovered(a, b)
  {
    hide Bytea, Encode, Payload, IsPrev;
    ByteaExactIff(RowPayload(a));
    ByteaExactIff(RowPayload(b));
    if Encode(RowPayload(a)) == Encode(RowPayload(b)) {
      EncodeInjective(RowPayload(a), RowPayload(b));
      PayloadInjective(a.action, a.permBit, a.tenantId, OrEmpty(a.prevHash),
                       b.action, b.permBit, b.tenantId, OrEmpty(b.prevHash));
    }
  }

  /** Between plain texts, changing a covered column is always reported, at that row; changing anything else never. */
  lemma TamperingReportedIff(hash: Hash, rows: seq<Row>, i: nat, altered: Row)
    requires VerifyChain(hash, rows) == Some([]) && i < |rows| && altered.rowHash == rows[i].rowHash
    requires Plain(rows[i]) && Plain(altered)
    requires CollisionFree(hash, BothReadings(rows[i]) + BothReadings(altered))
    ensures VerifyChain(hash, rows[i := altered])
         == Some(if SameCovered(rows[i], altered) then [] else [Finding(altered.id, "row_hash mismatch")])
  {
    hide VerifyChain, Plain, SameCovered, BothReadings, Bytea, RowPayload;
    AlteredRowReportedIff(hash, rows, i, altered);
    PlainBytes(altered, rows[i]);
    PlainBytes(rows[i], altered);
  }

  /** Who acted, whether it was granted and what the details say may be changed in any table without a trace. */
  lemma DetailsAreNotCovered(hash: Hash, rows: seq<Row>, i: nat, detail: AuditEntry)
    requires i < |rows|
    ensures VerifyChain(hash, rows[i := rows[i].(detail := detail)]) == VerifyChain(hash, rows)
  {
    var altered := rows[i].(detail := detail);
    var changed := rows[i := altered];
    assert SqlRowHash(hash, altered) == SqlRowHash(hash, rows[i]);
    FindingsOf(hash, rows, changed);
    SomeUnhashable(hash, rows, changed);
    SomeUnhashable(hash, changed, rows);
  }

  /** Rows that look alike to the query. */
  ghost predicate Alike(hash: Hash, xs: seq<Row>, ys: seq<Row>) {
    |xs| == |ys| && forall k :: 0 <= k < |xs| ==>
      xs[k].id == ys[k].id && xs[k].rowHash == ys[k].rowHash && SqlRowHash(hash, xs[k]) == SqlRowHash(hash, ys[k])
  }

  lemma {:induction false} FindingsOf(hash: Hash, xs: seq<Row>, ys: seq<Row>)
    requires Alike(hash, xs, ys)
    ensures Mismatched(hash, xs) == Mismatched(hash, ys) && AuditChain.Missing(xs) == AuditChain.Missing(ys)
  {
    hide SqlRowHash;
    if xs != [] { FindingsOf(hash, xs[1..], ys[1..]); }
  }

  lemma SomeUnhashable(hash: Hash, xs: seq<Row>, ys: seq<Row>)
    requires Alike(hash, xs, ys)
    ensures (exists row :: row in xs && SqlRowHash(hash, row).None?)
        ==> exists row :: row in ys && SqlRowHash(hash, row).None?
  {
    hide SqlRowHash;
    if row :| row in xs && SqlRowHash(hash, row).None? {
      var k :| 0 <= k < |xs| && xs[k] == row;
      assert ys[k] in ys;
    }
  }

  // ---------------------------------------------------------------- changes that go unseen

  /** The one row of a tenant called `a|b`. It is accepted, and it stays accepted when the tenant is spelled with an
      octal escape, and when the tenant's second half is moved into the previous hash: both texts have its bytes. */
  lemma RenamesUnseen(hash: Hash, entry: AuditEntry)
    requires entry.tenantId == "a|b"
    ensures var row := SentRow(hash, [], 0, entry);
            && Recorded(hash, [entry]) == [row] && VerifyChain(hash, [row]) == Some([])
            && VerifyChain(hash, [row.(tenantId := "a\\174b")]) == Some([])
            && VerifyChain(hash, [row.(tenantId := "a", prevHash := Some("b|"))]) == Some([])
  {
    hide Bytea, Encode, VerifyChain, Decimal, RowPayload;
    var row := SentRow(hash, [], 0, entry);
    var name, bit := entry.action.Name(), Decimal(entry.action.PermBit());
    var before := name + "|" + bit + "|a";
    FirstRowColumns(hash, entry);
    RenamedTexts(row, before);
    DecimalIsDigits(entry.action.PermBit());
    NoBackslashInName(entry.action);
    OctalBar(before, "b|");
    ByteaExactIff(RowPayload(row));
    SameBytesAccepted(hash, row, row);
    SameBytesAccepted(hash, row, row.(tenantId := "a\\174b"));
    SameBytesAccepted(hash, row, row.(tenantId := "a", prevHash := Some("b|")));
  }

  lemma FirstRowColumns(hash: Hash, entry: AuditEntry)
    ensures var row := SentRow(hash, [], 0, entry);
            && Recorded(hash, [entry]) == [row] && Attested(hash, row)
            && row.action == entry.action.Name() && row.permBit == Some(entry.action.PermBit())
            && row.tenantId == entry.tenantId && row.prevHash == Some("")
  {
    assert LastHash([], entry.tenantId) == "";
    RecordedStep(hash, [], entry);
    SentRowAttested(hash, [], 0, entry);
    assert [] + [entry] == [entry] && Recorded(hash, []) == [];
  }

  lemma RenamedTexts(row: Row, before: string)
    requires row.permBit.Some? && row.tenantId == "a|b" && row.prevHash == Some("")
    requires before == row.action + "|" + Decimal(row.permBit.value) + "|a"
    ensures RowPayload(row) == before + "|" + "b|"
    ensures RowPayload(row.(tenantId := "a\\174b")) == before + "\\174" + "b|"
    ensures RowPayload(row.(tenantId := "a", prevHash := Some("b|"))) == RowPayload(row)
  {
    hide Decimal;
    var start := row.action + "|" + Decimal(row.permBit.value) + "|";
    assert "a|b" + "|" + "" == "a|b|" && "a\\174b" + "|" + "" == "a\\174b|" && "a" + "|" + "b|" == "a|b|";
    assert RowPayload(row) == start + "a|b|";
    assert RowPayload(row.(tenantId := "a\\174b")) == start + "a\\174b|";
    assert RowPayload(row.(tenantId := "a", prevHash := Some("b|"))) == start + "a|b|";
    assert before == start + "a";
  }

  lemma SameBytesAccepted(hash: Hash, row: Row, altered: Row)
    requires Attested(hash, row) && Bytea(RowPayload(row)) == Some(Encode(RowPayload(row)))
    requires altered.rowHash == row.rowHash && Bytea(RowPayload(altered)) == Bytea(RowPayload(row))
    ensures VerifyChain(hash, [altered]) == Some([])
  {
    hide Bytea, Encode, RowPayload;
    VerifySilentIffConsistent(hash, [altered]);
  }
}
