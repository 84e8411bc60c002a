/**
 * The fetch batch: for each listed message id not yet stored, ask the
 * service for its details and add the parsed record to the session if one
 * came back; the session commits at the end.
 *
 * The service's answer for an id is the parameter `details` (`None` where
 * the details call fails). The session does not flush before a lookup, so
 * the "already stored" test sees only committed records, never the
 * session's own pending additions. A record is added under its own `id`
 * (the id inside the service's answer). The store's primary key rejects a
 * new record whose id is already stored or shared with another new record,
 * and then the whole session is rolled back.
 */
module FetchEmails {

  import opened Wrappers
  import opened Dicts
  import opened Store

  /**
   * The session after the loop: additions waiting for the commit, each
   * under its record's own id, and the ids whose details were requested, in order.
   */
  datatype Session = Session(pending: seq<(string, Email)>, asked: seq<string>)

  /** The loop over the listing: a stored id is skipped, a missing one is fetched and added when details arrive. */
  function Ingest(emails: map<string, Email>, listing: seq<string>, details: string -> Option<Email>): Session
    decreases |listing|
  {
    if listing == [] then Session([], [])
    else
      var n := |listing| - 1;
      var s := Ingest(emails, listing[..n], details);
      var id := listing[n];
      if id in emails then s
      else match details(id)
        case None => s.(asked := s.asked + [id])
        case Some(e) => Session(s.pending + [(e.id, e)], s.asked + [id])
  }

  /** No pending record's id is already stored. */
  predicate NoneStored(emails: map<string, Email>, pending: seq<(string, Email)>) {
    forall k :: 0 <= k < |pending| ==> pending[k].0 !in emails
  }

  /**
   * The commit: the new store, or `None` when a pending record's id is
   * already stored or shared by two pending records and the session rolls back.
   */
  function Commit(emails: map<string, Email>, pending: seq<(string, Email)>): Option<map<string, Email>> {
    if DistinctKeys(pending) && NoneStored(emails, pending) then Some(emails + ToMap(pending)) else None
  }

  /** The service answers a details request with the message that was asked for. */
  ghost predicate AnswersForId(details: string -> Option<Email>) {
    forall id :: details(id).Some? ==> details(id).value.id == id
  }

  /** Listed ids that were not stored and whose details came back. */
  function Arrived(emails: map<string, Email>, listing: seq<string>, details: string -> Option<Email>): set<string> {
    set id | id in listing && id !in emails && details(id).Some?
  }

  /** The arrived set grows by the last listed id at most. */
  lemma ArrivedLast(emails: map<string, Email>, listing: seq<string>, details: string -> Option<Email>)
    requires listing != []
    ensures var id := listing[|listing| - 1];
      Arrived(emails, listing, details)
        == Arrived(emails, listing[..|listing| - 1], details) + (if id !in emails && details(id).Some? then {id} else {})
  {
    assert listing == listing[..|listing| - 1] + [listing[|listing| - 1]];
  }

  /** The pending additions are exactly the arrived ids. */
  lemma {:induction false} PendingIds(emails: map<string, Email>, listing: seq<string>, details: string -> Option<Email>)
    requires AnswersForId(details)
    ensures ToMap(Ingest(emails, listing, details).pending).Keys == Arrived(emails, listing, details)
    decreases |listing|
  {
    if listing != [] {
      var n := |listing| - 1;
      PendingIds(emails, listing[..n], details);
      ArrivedLast(emails, listing, details);
      var s := Ingest(emails, listing[..n], details);
      var id := listing[n];
      if id !in emails && details(id).Some? {
        var grown := s.pending + [(id, details(id).value)];
        assert Ingest(emails, listing, details).pending == grown;
        assert grown[..|grown| - 1] == s.pending;
        assert ToMap(grown).Keys == ToMap(s.pending).Keys + {id};
      } else {
        assert Ingest(emails, listing, details).pending == s.pending;
      }
    }
  }

  /** Each addition is a listed id that was not stored, with the details the service returned for it. */
  predicate FromListing(emails: map<string, Email>, listing: seq<string>, details: string -> Option<Email>, pending: seq<(string, Email)>) {
    forall k :: 0 <= k < |pending| ==>
      pending[k].0 in listing && pending[k].0 !in emails && details(pending[k].0) == Some(pending[k].1)
  }

  lemma {:induction false} PendingRecords(emails: map<string, Email>, listing: seq<string>, details: string -> Option<Email>)
    requires AnswersForId(details)
    ensures FromListing(emails, listing, details, Ingest(emails, listing, details).pending)
    decreases |listing|
  {
    if listing != [] {
      var n := |listing| - 1;
      PendingRecords(emails, listing[..n], details);
      var s := Ingest(emails, listing[..n], details);
      var id := listing[n];
      var p := Ingest(emails, listing, details).pending;
      forall k | 0 <= k < |p|
        ensures p[k].0 in listing && p[k].0 !in emails && details(p[k].0) == Some(p[k].1)
      {
        if k < |s.pending| {
          assert p[k] == s.pending[k];
          assert s.pending[k].0 in listing[..n];
        } else {
          assert p[k] == (id, details(id).value);
        }
      }
    }
  }

  /** Details are requested exactly for the listed ids that were not stored. */
  lemma {:induction false} IngestAsks(emails: map<string, Email>, listing: seq<string>, details: string -> Option<Email>)
    ensures forall id :: id in Ingest(emails, listing, details).asked <==> id in listing && id !in emails
    decreases |listing|
  {
    if listing != [] {
      var n := |listing| - 1;
      IngestAsks(emails, listing[..n], details);
      assert listing == listing[..n] + [listing[n]];
    }
  }

  /** A listing without repeated ids yields additions with distinct ids. */
  lemma {:induction false} DistinctListingDistinctKeys(emails: map<string, Email>, listing: seq<string>, details: string -> Option<Email>)
    requires AnswersForId(details)
    requires forall i, j :: 0 <= i < j < |listing| ==> listing[i] != listing[j]
    ensures DistinctKeys(Ingest(emails, listing, details).pending)
    decreases |listing|
  {
    if listing != [] {
      var n := |listing| - 1;
      DistinctListingDistinctKeys(emails, listing[..n], details);
      PendingRecords(emails, listing[..n], details);
      var s := Ingest(emails, listing[..n], details);
      var id := listing[n];
      if id !in emails && details(id).Some? {
        forall k | 0 <= k < |s.pending|
          ensures s.pending[k].0 != id
        {
          assert FromListing(emails, listing[..n], details, s.pending);
          assert s.pending[k].0 in listing[..n];
          var j :| 0 <= j < n && listing[..n][j] == s.pending[k].0;
          assert listing[j] != listing[n];
        }
      }
    }
  }

  /** A listing without repeated ids always commits. */
  lemma DistinctListingCommits(emails: map<string, Email>, listing: seq<string>, details: string -> Option<Email>)
    requires AnswersForId(details)
    requires forall i, j :: 0 <= i < j < |listing| ==> listing[i] != listing[j]
    ensures Commit(emails, Ingest(emails, listing, details).pending).Some?
  {
    var p := Ingest(emails, listing, details).pending;
    DistinctListingDistinctKeys(emails, listing, details);
    PendingRecords(emails, listing, details);
    assert FromListing(emails, listing, details, p);
    assert NoneStored(emails, p);
  }

  /**
   * After a commit: stored records are untouched, exactly the arrived ids
   * were added, each with its details, and the count is the number of new
   * records.
   */
  lemma CommittedStore(emails: map<string, Email>, listing: seq<string>, details: string -> Option<Email>)
    requires AnswersForId(details)
    requires Commit(emails, Ingest(emails, listing, details).pending).Some?
    ensures var s := Ingest(emails, listing, details);
      var stored := Commit(emails, s.pending).value;
      stored.Keys == emails.Keys + Arrived(emails, listing, details)
      && (forall id :: id in emails ==> stored[id] == emails[id])
      && (forall id :: id in stored && id !in emails ==> details(id) == Some(stored[id]))
      && |s.pending| == |stored.Keys - emails.Keys|
  {
    var s := Ingest(emails, listing, details);
    var added := ToMap(s.pending);
    var stored := emails + added;
    PendingIds(emails, listing, details);
    PendingRecords(emails, listing, details);
    forall id | id in stored && id !in emails
      ensures details(id) == Some(stored[id])
    {
      var k :| 0 <= k < |s.pending| && s.pending[k].0 == id;
      ToMapLastWins(s.pending, k);
    }
    assert stored.Keys - emails.Keys == added.Keys;
    ToMapSize(s.pending);
  }

  /** An id listed twice is fetched twice; the two records collide at the commit and nothing is stored. */
  lemma DuplicateIdRollsBack(emails: map<string, Email>, id: string, details: string -> Option<Email>)
    requires id !in emails && details(id).Some?
    ensures Ingest(emails, [id, id], details).asked == [id, id]
    ensures |Ingest(emails, [id, id], details).pending| == 2
    ensures Commit(emails, Ingest(emails, [id, id], details).pending) == None
  {
    var e := details(id).value;
    assert [id][..0] == [];
    assert Ingest(emails, [id], details) == Session([(e.id, e)], [id]);
    assert [id, id][..1] == [id];
    assert Ingest(emails, [id, id], details).pending == [(e.id, e), (e.id, e)];
  }

  /** Every addition is keyed by its record's own id. */
  predicate KeyedByRecord(pending: seq<(string, Email)>) {
    forall k :: 0 <= k < |pending| ==> pending[k].0 == pending[k].1.id
  }

  lemma {:induction false} PendingKeyedByRecord(emails: map<string, Email>, listing: seq<string>, details: string -> Option<Email>)
    ensures KeyedByRecord(Ingest(emails, listing, details).pending)
    decreases |listing|
  {
    if listing != [] {
      var n := |listing| - 1;
      PendingKeyedByRecord(emails, listing[..n], details);
      var before := Ingest(emails, listing[..n], details).pending;
      var id := listing[n];
      if id !in emails && details(id).Some? {
        var p := before + [(details(id).value.id, details(id).value)];
        assert Ingest(emails, listing, details).pending == p;
        assert forall k :: 0 <= k < |before| ==> p[k] == before[k];
      } else {
        assert Ingest(emails, listing, details).pending == before;
      }
    }
  }

  /**
   * A record whose own id differs from the requested one and is already
   * stored collides with the stored row: nothing is stored.
   */
  lemma ForeignIdRollsBack(emails: map<string, Email>, id: string, details: string -> Option<Email>)
    requires id !in emails && details(id).Some? && details(id).value.id in emails
    ensures Ingest(emails, [id], details).asked == [id]
    ensures Commit(emails, Ingest(emails, [id], details).pending) == None
  {
    var e := details(id).value;
    assert [id][..0] == [];
    assert Ingest(emails, [id], details).pending == [(e.id, e)];
  }

  /**
   * The fetch loop over an already obtained listing; an empty listing
   * returns before the session opens. `rolledBack` reports a failed commit.
   */
  method FetchNew(db: Database, listing: seq<string>, details: string -> Option<Email>)
    returns (fetchedCount: nat, rolledBack: bool, ghost asked: seq<string>)
    modifies db
    ensures var s := Ingest(old(db.emails), listing, details);
      fetchedCount == |s.pending| && asked == s.asked
      && rolledBack == Commit(old(db.emails), s.pending).None?
      && db.emails == Commit(old(db.emails), s.pending).GetOr(old(db.emails))
  {
    if |listing| == 0 {
      assert old(db.emails) + ToMap<string, Email>([]) == old(db.emails);
      return 0, false, [];
    }
    var pending: seq<(string, Email)> := [];
    fetchedCount := 0;
    asked := [];
    var i := 0;
    while i < |listing|
      invariant 0 <= i <= |listing|
      invariant db.emails == old(db.emails)
      invariant Ingest(old(db.emails), listing[..i], details) == Session(pending, asked)
      invariant fetchedCount == |pending|
    {
      var id := listing[i];
      assert listing[..i + 1][..i] == listing[..i];
      if id !in db.emails {
        var email := details(id);
        asked := asked + [id];
        if email.Some? {
          pending := pending + [(email.value.id, email.value)];
          fetchedCount := fetchedCount + 1;
        }
      }
      i := i + 1;
    }
    assert listing[..i] == listing;
    match Commit(db.emails, pending)
    case Some(stored) =>
      db.emails := stored;
      rolledBack := false;
    case None =>
      rolledBack := true;
  }
}
