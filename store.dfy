/**
 * A MongoDB collection as the ingestion side sees it (src/services/db.rs `insert_document`):
 * an append-only sequence of documents, plus the counter that hands out fresh ids. Whether
 * an insert is accepted by the server is the parameter `accept`, keyed by the id the record
 * was given.
 */
module Store {
  import opened Wrappers

  class Collection<D> {
    var docs: seq<D>
    var nextId: nat

    constructor ()
      ensures docs == [] && nextId == 0
    {
      docs := [];
      nextId := 0;
    }

    /** `ObjectId::new()`: a fresh id, never handed out before by this collection. */
    method NewId() returns (id: nat)
      modifies this
      ensures id == old(nextId) && nextId == old(nextId) + 1 && docs == old(docs)
    {
      id := nextId;
      nextId := nextId + 1;
    }

    /** `insert_one`: appends the document when the server accepts it. */
    method InsertOne(d: D, accepted: bool) returns (ok: bool)
      modifies this
      ensures ok == accepted
      ensures docs == old(docs) + (if accepted then [d] else [])
      ensures nextId == old(nextId)
    {
      if accepted {
        docs := docs + [d];
      }
      ok := accepted;
    }
  }

  /** Appending in two steps is appending once. */
  lemma AppendAssoc<T>(a: seq<T>, b: seq<T>, c: seq<T>)
    ensures a + b + c == a + (b + c)
  {
  }

  /**
   * What `store_to_db` leaves in the collection for one batch: each record is converted
   * with the id `base + i`, and kept when the conversion succeeds and the insert is accepted.
   */
  function Stored<R, D>(records: seq<R>, convert: (R, nat) -> Option<D>, accept: nat -> bool, base: nat)
    : (out: seq<D>)
    ensures |out| <= |records|
  {
    if records == [] then []
    else
      var n := |records| - 1;
      var rest := Stored(records[..n], convert, accept, base);
      rest + (if accept(base + n) && convert(records[n], base + n).Some?
              then [convert(records[n], base + n).value] else [])
  }

  /** One more record extends the stored prefix by at most its own document. */
  lemma StoredSnoc<R, D>(records: seq<R>, convert: (R, nat) -> Option<D>, accept: nat -> bool, base: nat, i: nat)
    requires i < |records|
    ensures Stored(records[..i + 1], convert, accept, base)
         == Stored(records[..i], convert, accept, base)
            + (if accept(base + i) && convert(records[i], base + i).Some?
               then [convert(records[i], base + i).value] else [])
  {
    assert records[..i + 1][..i] == records[..i];
  }

  /** Every stored document is the conversion of some record whose insert was accepted. */
  lemma {:induction false} StoredComesFromRecords<R, D>(records: seq<R>, convert: (R, nat) -> Option<D>,
                                                        accept: nat -> bool, base: nat, d: D)
    requires d in Stored(records, convert, accept, base)
    ensures exists i :: (0 <= i < |records| && accept(base + i) && convert(records[i], base + i) == Some(d))
  {
    var n := |records| - 1;
    var rest := Stored(records[..n], convert, accept, base);
    if d in rest {
      StoredComesFromRecords(records[..n], convert, accept, base, d);
      var i :| 0 <= i < n && accept(base + i) && convert(records[..n][i], base + i) == Some(d);
      assert records[..n][i] == records[i];
    } else {
      assert accept(base + n) && convert(records[n], base + n) == Some(d);
    }
  }

  /** Every record that converts and is accepted is kept. */
  lemma {:induction false} StoredKeepsAccepted<R, D>(records: seq<R>, convert: (R, nat) -> Option<D>,
                                                     accept: nat -> bool, base: nat, i: nat)
    requires i < |records| && accept(base + i) && convert(records[i], base + i).Some?
    ensures convert(records[i], base + i).value in Stored(records, convert, accept, base)
  {
    var n := |records| - 1;
    if i < n {
      assert records[..n][i] == records[i];
      StoredKeepsAccepted(records[..n], convert, accept, base, i);
    }
  }

  /** The record at id `id` converts and its insert is accepted. */
  predicate Succeeds<R, D>(r: R, id: nat, convert: (R, nat) -> Option<D>, accept: nat -> bool) {
    accept(id) && convert(r, id).Some?
  }

  /** Nothing is lost when every record converts and every insert is accepted. */
  lemma {:induction false} StoredAllWhenAllSucceed<R, D>(records: seq<R>, convert: (R, nat) -> Option<D>,
                                                         accept: nat -> bool, base: nat)
    requires forall i :: 0 <= i < |records| ==> Succeeds(records[i], base + i, convert, accept)
    ensures |Stored(records, convert, accept, base)| == |records|
  {
    if records != [] {
      var n := |records| - 1;
      var prefix := records[..n];
      assert forall i :: 0 <= i < |prefix| ==> prefix[i] == records[i];
      assert Succeeds(records[n], base + n, convert, accept);
      StoredAllWhenAllSucceed(prefix, convert, accept, base);
    }
  }

  /**
   * `store_to_db`: converts and inserts the records one by one; a failed conversion and a
   * refused insert both count as errors, neither stops the batch, and the result is always Ok.
   */
  method StoreToDb<R, D>(c: Collection<D>, records: seq<R>, convert: (R, nat) -> Option<D>, accept: nat -> bool)
    returns (success: nat, errors: nat)
    modifies c
    ensures success + errors == |records|
    ensures c.docs == old(c.docs) + Stored(records, convert, accept, old(c.nextId))
    ensures success == |Stored(records, convert, accept, old(c.nextId))|
    ensures c.nextId == old(c.nextId) + |records|
  {
    success, errors := 0, 0;
    var base := c.nextId;
    var i := 0;
    while i < |records|
      invariant 0 <= i <= |records|
      invariant c.nextId == base + i
      invariant c.docs == old(c.docs) + Stored(records[..i], convert, accept, base)
      invariant success == |Stored(records[..i], convert, accept, base)|
      invariant success + errors == i
    {
      StoredSnoc(records, convert, accept, base, i);
      var id := c.NewId();
      var doc := convert(records[i], id);
      if doc.Some? {
        var ok := c.InsertOne(doc.value, accept(id));
        if ok {
          success := success + 1;
        } else {
          errors := errors + 1;
        }
      } else {
        errors := errors + 1;
      }
      i := i + 1;
    }
    assert records[..|records|] == records;
  }
}
