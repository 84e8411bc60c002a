/**
 * The Gmail client: the label-name cache, the label changes that mark a
 * message read or unread or move it, and the conversion of a fetched
 * message into a stored Email record.
 *
 * The service itself is abstract: a modify request is answered with an
 * arbitrary success flag, and base64url/UTF-8 decoding and the local-time
 * conversion of `internalDate` are parameters.
 */
module Gmail {

  import opened Wrappers
  import opened Dicts
  import opened Text
  import opened Store

  datatype Label = Label(id: string, name: string)

  datatype Header = Header(name: string, value: string)

  /**
   * A MIME part: its type, headers, `body.data` (base64url text), whether
   * it has a `parts` key, and the nested parts listed under that key.
   */
  datatype Payload = Payload(mimeType: string, headers: seq<Header>, data: Option<string>, hasParts: bool, parts: seq<Payload>)

  /** A message as the service returns it with `format="full"`. */
  datatype RawMessage = RawMessage(id: string, threadId: string, internalDate: int, labelIds: Option<seq<string>>, payload: Payload)

  /** The body of a `messages.modify` call. */
  datatype ModifyRequest = ModifyRequest(messageId: string, add: seq<string>, remove: seq<string>)

  // ---------------------------------------------------------------------
  // Label cache
  // ---------------------------------------------------------------------

  /** The name→id cache filled at construction; a failed listing leaves it empty. */
  function LabelCache(listing: Option<seq<Label>>): map<string, string> {
    match listing
    case None => map[]
    case Some(ls) => ToMap(LabelPairs(ls))
  }

  function LabelPairs(ls: seq<Label>): (pairs: seq<(string, string)>)
    ensures |pairs| == |ls|
    ensures forall i :: 0 <= i < |ls| ==> pairs[i] == (ls[i].name, ls[i].id)
  {
    seq(|ls|, i requires 0 <= i < |ls| => (ls[i].name, ls[i].id))
  }

  /** A cached name resolves to the id of the last listed label of that name; other names do not resolve. */
  lemma LabelCacheLookup(ls: seq<Label>, name: string)
    ensures name in LabelCache(Some(ls)) <==> exists i :: 0 <= i < |ls| && ls[i].name == name
    ensures forall i :: 0 <= i < |ls| && ls[i].name == name && (forall j :: i < j < |ls| ==> ls[j].name != name)
              ==> name in LabelCache(Some(ls)) && LabelCache(Some(ls))[name] == ls[i].id
  {
    var pairs := LabelPairs(ls);
    forall i | 0 <= i < |ls| && ls[i].name == name && (forall j :: i < j < |ls| ==> ls[j].name != name)
      ensures name in LabelCache(Some(ls)) && LabelCache(Some(ls))[name] == ls[i].id
    {
      ToMapLastWins(pairs, i);
    }
  }

  /** A label id the client can use: found in the cache and not empty (Python truthiness). */
  function UsableId(cache: map<string, string>, name: string): (r: Option<string>)
    ensures r.Some? <==> name in cache && cache[name] != ""
    ensures r.Some? ==> r.value == cache[name]
  {
    if name in cache && cache[name] != "" then Some(cache[name]) else None
  }

  // ---------------------------------------------------------------------
  // Label changes
  // ---------------------------------------------------------------------

  /** `_modify_labels` argument normalisation: a missing list is sent as `[]`. */
  function ModifyBody(messageId: string, add: Option<seq<string>>, remove: Option<seq<string>>): ModifyRequest {
    ModifyRequest(messageId, add.GetOr([]), remove.GetOr([]))
  }

  /** `mark_as_read`: remove the UNREAD label, if its id is cached. */
  function ReadRequest(cache: map<string, string>, messageId: string): Option<ModifyRequest> {
    match UsableId(cache, "UNREAD")
    case None => None
    case Some(unread) => Some(ModifyBody(messageId, None, Some([unread])))
  }

  /** `mark_as_unread`: add the UNREAD label, if its id is cached. */
  function UnreadRequest(cache: map<string, string>, messageId: string): Option<ModifyRequest> {
    match UsableId(cache, "UNREAD")
    case None => None
    case Some(unread) => Some(ModifyBody(messageId, Some([unread]), None))
  }

  /** `move_to_label`: add the destination and drop INBOX (when INBOX is cached). */
  function MoveRequest(cache: map<string, string>, messageId: string, destination: string): Option<ModifyRequest> {
    match UsableId(cache, destination)
    case None => None
    case Some(dest) =>
      var remove := match UsableId(cache, "INBOX") case Some(inbox) => [inbox] case None => [];
      Some(ModifyBody(messageId, Some([dest]), Some(remove)))
  }

  /** The three label changes, as the source builds them. */
  lemma RequestShapes(cache: map<string, string>, messageId: string, destination: string)
    ensures ReadRequest(cache, messageId).Some? <==> "UNREAD" in cache && cache["UNREAD"] != ""
    ensures ReadRequest(cache, messageId).Some? ==>
      ReadRequest(cache, messageId).value == ModifyRequest(messageId, [], [cache["UNREAD"]])
    ensures UnreadRequest(cache, messageId).Some? <==> "UNREAD" in cache && cache["UNREAD"] != ""
    ensures UnreadRequest(cache, messageId).Some? ==>
      UnreadRequest(cache, messageId).value == ModifyRequest(messageId, [cache["UNREAD"]], [])
    ensures MoveRequest(cache, messageId, destination).Some? <==> destination in cache && cache[destination] != ""
    ensures MoveRequest(cache, messageId, destination).Some? ==>
      MoveRequest(cache, messageId, destination).value.add == [cache[destination]]
      && MoveRequest(cache, messageId, destination).value.remove
           == (if "INBOX" in cache && cache["INBOX"] != "" then [cache["INBOX"]] else [])
  {
  }

  /** The label set a message holds after the service applies a request. */
  function Relabel(labels: set<string>, req: ModifyRequest): set<string> {
    (labels - set l | l in req.remove) + set l | l in req.add
  }

  function LabelsOf(mailbox: map<string, set<string>>, messageId: string): set<string> {
    if messageId in mailbox then mailbox[messageId] else {}
  }

  /** The service as seen by the client: each message's label ids, and every modify request sent. */
  datatype Remote = Remote(mailbox: map<string, set<string>>, sent: seq<ModifyRequest>)

  /** A modify request is always sent; the labels change only if the service reports success. */
  function Send(r: Remote, req: ModifyRequest, ok: bool): Remote {
    Remote(if ok then r.mailbox[req.messageId := Relabel(LabelsOf(r.mailbox, req.messageId), req)] else r.mailbox,
           r.sent + [req])
  }

  /** After a successful read request the message no longer carries the UNREAD id; after an unread request it does. */
  lemma ReadUnreadEffect(cache: map<string, string>, r: Remote, messageId: string)
    ensures ReadRequest(cache, messageId).Some? ==>
      cache["UNREAD"] !in Send(r, ReadRequest(cache, messageId).value, true).mailbox[messageId]
    ensures UnreadRequest(cache, messageId).Some? ==>
      cache["UNREAD"] in Send(r, UnreadRequest(cache, messageId).value, true).mailbox[messageId]
  {
  }

  /** Moving puts the destination id on the message and, unless the destination is INBOX itself, takes INBOX off. */
  lemma MoveEffect(cache: map<string, string>, r: Remote, messageId: string, destination: string)
    requires MoveRequest(cache, messageId, destination).Some?
    ensures var after := Send(r, MoveRequest(cache, messageId, destination).value, true).mailbox[messageId];
      cache[destination] in after
      && ("INBOX" in cache && cache["INBOX"] != "" && cache["INBOX"] != cache[destination] ==> cache["INBOX"] !in after)
  {
  }

  // ---------------------------------------------------------------------
  // Parsing a fetched message
  // ---------------------------------------------------------------------

  /** `{h["name"].lower(): h["value"] for h in headers}` */
  function HeaderMap(headers: seq<Header>): map<string, string> {
    ToMap(seq(|headers|, i requires 0 <= i < |headers| => (Lower(headers[i].name), headers[i].value)))
  }

  /** `header_map.get(key, default)` */
  function HeaderOr(headers: seq<Header>, key: string, default: string): string {
    Get(HeaderMap(headers), key).GetOr(default)
  }

  /** Header lookup ignores the case of header names, the last duplicate wins, and a missing header gives the default. */
  lemma HeaderLookup(headers: seq<Header>, key: string, default: string)
    ensures (forall i :: 0 <= i < |headers| ==> Lower(headers[i].name) != key) ==> HeaderOr(headers, key, default) == default
    ensures forall i :: 0 <= i < |headers| && Lower(headers[i].name) == key
              && (forall j :: i < j < |headers| ==> Lower(headers[j].name) != key)
              ==> HeaderOr(headers, key, default) == headers[i].value
  {
    var pairs := seq(|headers|, i requires 0 <= i < |headers| => (Lower(headers[i].name), headers[i].value));
    if forall i :: 0 <= i < |headers| ==> Lower(headers[i].name) != key {
      assert key !in HeaderMap(headers);
    }
    forall i | 0 <= i < |headers| && Lower(headers[i].name) == key
        && (forall j :: i < j < |headers| ==> Lower(headers[j].name) != key)
      ensures HeaderOr(headers, key, default) == headers[i].value
    {
      ToMapLastWins(pairs, i);
    }
  }

  /** `payload.get("body", {}).get("data")` is present and non-empty. */
  predicate HasData(p: Payload) {
    p.data.Some? && p.data.value != ""
  }

  /** `_extract_message_body`: the payload's own data, else the first text/plain part found depth-first. */
  function ExtractBody(p: Payload, decode: string -> string): string
    decreases p, 1
  {
    if HasData(p) then decode(p.data.value)
    else if p.hasParts then PartsBody(p, 0, decode)
    else ""
  }

  /** The loop over `p`'s parts from index `i` on, with its early returns. */
  function PartsBody(p: Payload, i: nat, decode: string -> string): string
    decreases p, 0, |p.parts| - i
  {
    if i >= |p.parts| then ""
    else
      var q := p.parts[i];
      if q.mimeType == "text/plain" then
        if HasData(q) then decode(q.data.value) else PartsBody(p, i + 1, decode)
      else if q.hasParts then
        var b := ExtractBody(q, decode);
        if b != "" then b else PartsBody(p, i + 1, decode)
      else PartsBody(p, i + 1, decode)
  }

  /**
   * The data of every text/plain candidate, in the depth-first order the
   * search visits them: a part's own data first, text/plain parts with
   * data, and the candidates of nested non-text/plain parts.
   */
  function Candidates(p: Payload): (cs: seq<string>)
    ensures forall k :: 0 <= k < |cs| ==> cs[k] != ""
    decreases p, 1
  {
    if HasData(p) then [p.data.value]
    else if p.hasParts then PartsCandidates(p, 0)
    else []
  }

  function PartsCandidates(p: Payload, i: nat): (cs: seq<string>)
    ensures forall k :: 0 <= k < |cs| ==> cs[k] != ""
    decreases p, 0, |p.parts| - i
  {
    if i >= |p.parts| then []
    else PartCandidates(p.parts[i]) + PartsCandidates(p, i + 1)
  }

  /** The candidates one part of a list contributes. */
  function PartCandidates(q: Payload): (cs: seq<string>)
    ensures forall k :: 0 <= k < |cs| ==> cs[k] != ""
    decreases q, 2
  {
    if q.mimeType == "text/plain" then (if HasData(q) then [q.data.value] else [])
    else if q.hasParts then Candidates(q)
    else []
  }

  /** A candidate of a later part keeps its place after the earlier parts' candidates. */
  lemma ShiftedCandidate(p: Payload, i: nat, k: nat)
    requires i < |p.parts| && k < |PartsCandidates(p, i + 1)|
    ensures PartsCandidates(p, i)[|PartCandidates(p.parts[i])| + k] == PartsCandidates(p, i + 1)[k]
  {
  }

  /** Whatever decoding does, the body is empty or the decoding of one of the candidates. */
  lemma {:induction false} BodyComesFromCandidate(p: Payload, decode: string -> string)
    ensures var b := ExtractBody(p, decode);
      b == "" || exists k :: 0 <= k < |Candidates(p)| && b == decode(Candidates(p)[k])
    decreases p, 1
  {
    if HasData(p) {
      assert ExtractBody(p, decode) == decode(Candidates(p)[0]);
    } else if p.hasParts {
      PartsBodyComesFromCandidate(p, 0, decode);
      assert Candidates(p) == PartsCandidates(p, 0);
      assert ExtractBody(p, decode) == PartsBody(p, 0, decode);
    }
  }

  lemma {:induction false} PartsBodyComesFromCandidate(p: Payload, i: nat, decode: string -> string)
    ensures var b := PartsBody(p, i, decode);
      b == "" || exists k :: 0 <= k < |PartsCandidates(p, i)| && b == decode(PartsCandidates(p, i)[k])
    decreases p, 0, |p.parts| - i
  {
    if i < |p.parts| {
      var q := p.parts[i];
      var b := PartsBody(p, i, decode);
      if q.mimeType == "text/plain" && HasData(q) {
        assert PartCandidates(q) == [q.data.value];
        assert PartsCandidates(p, i)[0] == q.data.value;
      } else if q.mimeType != "text/plain" && q.hasParts && ExtractBody(q, decode) != "" {
        BodyComesFromCandidate(q, decode);
        var k :| 0 <= k < |Candidates(q)| && b == decode(Candidates(q)[k]);
        assert PartsCandidates(p, i)[k] == Candidates(q)[k];
      } else if b != "" {
        assert b == PartsBody(p, i + 1, decode);
        PartsBodyComesFromCandidate(p, i + 1, decode);
        var k :| 0 <= k < |PartsCandidates(p, i + 1)| && b == decode(PartsCandidates(p, i + 1)[k]);
        ShiftedCandidate(p, i, k);
      }
    }
  }

  /** When decoding never turns non-empty data into "", the body is the decoding of the first candidate. */
  lemma {:induction false} BodyIsFirstCandidate(p: Payload, decode: string -> string)
    requires forall d :: d != "" ==> decode(d) != ""
    ensures ExtractBody(p, decode) == if Candidates(p) == [] then "" else decode(Candidates(p)[0])
    decreases p, 1
  {
    if !HasData(p) && p.hasParts {
      PartsBodyIsFirstCandidate(p, 0, decode);
    }
  }

  lemma {:induction false} PartsBodyIsFirstCandidate(p: Payload, i: nat, decode: string -> string)
    requires forall d :: d != "" ==> decode(d) != ""
    ensures PartsBody(p, i, decode) == if PartsCandidates(p, i) == [] then "" else decode(PartsCandidates(p, i)[0])
    decreases p, 0, |p.parts| - i
  {
    if i < |p.parts| {
      var q := p.parts[i];
      PartsBodyIsFirstCandidate(p, i + 1, decode);
      if q.mimeType != "text/plain" && q.hasParts {
        BodyIsFirstCandidate(q, decode);
      }
    }
  }

  /**
   * A text/plain part without data is passed over: its nested parts are not
   * searched and it offers no candidate, so the search goes on with the next part.
   */
  lemma PlainPartWithoutDataNotSearched(p: Payload, i: nat, decode: string -> string)
    requires i < |p.parts| && p.parts[i].mimeType == "text/plain" && !HasData(p.parts[i])
    ensures PartsBody(p, i, decode) == PartsBody(p, i + 1, decode)
    ensures PartsCandidates(p, i) == PartsCandidates(p, i + 1)
  {
    assert PartCandidates(p.parts[i]) == [];
  }

  /** `_parse_message_to_email`, with decoding and the local-time conversion of `internalDate` as parameters. */
  function ParseMessage(raw: RawMessage, decode: string -> string, localTime: int -> Instant): Email {
    var headers := raw.payload.headers;
    var labelIds := raw.labelIds.GetOr([]);
    Email(
      id := raw.id,
      threadId := raw.threadId,
      messageId := HeaderOr(headers, "message-id", raw.id),
      sender := Some(HeaderOr(headers, "from", "")),
      recipient := Some(HeaderOr(headers, "to", "")),
      subject := Some(HeaderOr(headers, "subject", "")),
      body := Some(ExtractBody(raw.payload, decode)),
      receivedAt := Some(localTime(raw.internalDate)),
      isRead := "UNREAD" !in labelIds,
      labels := labelIds)
  }

  /** Missing headers give "" for subject, sender and recipient, and the message id for Message-ID. */
  lemma MissingHeadersDefault(raw: RawMessage, decode: string -> string, localTime: int -> Instant)
    requires forall i :: 0 <= i < |raw.payload.headers| ==>
      Lower(raw.payload.headers[i].name) !in ["message-id", "from", "to", "subject"]
    ensures var e := ParseMessage(raw, decode, localTime);
      e.messageId == raw.id && e.sender == Some("") && e.recipient == Some("") && e.subject == Some("")
  {
    var hs := raw.payload.headers;
    HeaderLookup(hs, "message-id", raw.id);
    HeaderLookup(hs, "from", "");
    HeaderLookup(hs, "to", "");
    HeaderLookup(hs, "subject", "");
  }

  /** A message is read exactly when UNREAD is not among its label ids; without `labelIds` it is read. */
  lemma IsReadFromLabels(raw: RawMessage, decode: string -> string, localTime: int -> Instant)
    ensures ParseMessage(raw, decode, localTime).isRead <==> raw.labelIds.None? || "UNREAD" !in raw.labelIds.value
    ensures raw.labelIds.None? ==> ParseMessage(raw, decode, localTime).labels == []
  {
  }

  /**
   * The read flag of a re-fetched message follows the label changes: with
   * the system label UNREAD cached under its own id, a message whose labels
   * went through a successful read request parses as read, and one whose
   * labels went through an unread request parses as unread.
   */
  lemma ReadFlagFollowsLabels(cache: map<string, string>, labels: set<string>, raw: RawMessage,
                              decode: string -> string, localTime: int -> Instant)
    requires "UNREAD" in cache && cache["UNREAD"] == "UNREAD"
    requires raw.labelIds.Some?
    ensures (forall l :: l in raw.labelIds.value <==> l in Relabel(labels, ReadRequest(cache, raw.id).value))
              ==> ParseMessage(raw, decode, localTime).isRead
    ensures (forall l :: l in raw.labelIds.value <==> l in Relabel(labels, UnreadRequest(cache, raw.id).value))
              ==> !ParseMessage(raw, decode, localTime).isRead
  {
  }

  // ---------------------------------------------------------------------
  // The client object
  // ---------------------------------------------------------------------

  class GmailClient {
    /** name → id, filled once at construction */
    var labelCache: map<string, string>
    /** the service's label ids per message */
    var mailbox: map<string, set<string>>
    /** every modify request sent, in order */
    var sent: seq<ModifyRequest>

    /** The labels listing is `None` when the listing call failed. */
    constructor (listing: Option<seq<Label>>, remoteLabels: map<string, set<string>>)
      ensures labelCache == LabelCache(listing)
      ensures mailbox == remoteLabels && sent == []
    {
      labelCache := LabelCache(listing);
      mailbox := remoteLabels;
      sent := [];
    }

    function RemoteState(): Remote
      reads this
    {
      Remote(mailbox, sent)
    }

    /** `get_label_id_by_name`: exact, case-sensitive lookup in the cache. */
    function LabelIdByName(name: string): (r: Option<string>)
      reads this
      ensures r.Some? <==> name in labelCache
      ensures r.Some? ==> r.value == labelCache[name]
    {
      Get(labelCache, name)
    }

    /** `_modify_labels`: the request is sent and the service's reply is returned. */
    method ModifyLabels(messageId: string, add: Option<seq<string>>, remove: Option<seq<string>>) returns (ok: bool)
      modifies this
      ensures labelCache == old(labelCache)
      ensures RemoteState() == Send(old(RemoteState()), ModifyBody(messageId, add, remove), ok)
    {
      var req := ModifyBody(messageId, add, remove);
      ok := *;
      sent := sent + [req];
      if ok {
        mailbox := mailbox[messageId := Relabel(LabelsOf(mailbox, messageId), req)];
      }
    }

    method MarkAsRead(messageId: string) returns (ok: bool)
      modifies this
      ensures labelCache == old(labelCache)
      ensures ReadRequest(labelCache, messageId).None? ==> !ok && RemoteState() == old(RemoteState())
      ensures ReadRequest(labelCache, messageId).Some? ==>
        RemoteState() == Send(old(RemoteState()), ReadRequest(labelCache, messageId).value, ok)
    {
      var unread := LabelIdByName("UNREAD");
      if unread.None? || unread.value == "" {
        return false;
      }
      ok := ModifyLabels(messageId, None, Some([unread.value]));
    }

    method MarkAsUnread(messageId: string) returns (ok: bool)
      modifies this
      ensures labelCache == old(labelCache)
      ensures UnreadRequest(labelCache, messageId).None? ==> !ok && RemoteState() == old(RemoteState())
      ensures UnreadRequest(labelCache, messageId).Some? ==>
        RemoteState() == Send(old(RemoteState()), UnreadRequest(labelCache, messageId).value, ok)
    {
      var unread := LabelIdByName("UNREAD");
      if unread.None? || unread.value == "" {
        return false;
      }
      ok := ModifyLabels(messageId, Some([unread.value]), None);
    }

    method MoveToLabel(messageId: string, destination: string) returns (ok: bool)
      modifies this
      ensures labelCache == old(labelCache)
      ensures MoveRequest(labelCache, messageId, destination).None? ==> !ok && RemoteState() == old(RemoteState())
      ensures MoveRequest(labelCache, messageId, destination).Some? ==>
        RemoteState() == Send(old(RemoteState()), MoveRequest(labelCache, messageId, destination).value, ok)
    {
      var dest := LabelIdByName(destination);
      var inbox := LabelIdByName("INBOX");
      if dest.None? || dest.value == "" {
        return false;
      }
      var remove := if inbox.Some? && inbox.value != "" then [inbox.value] else [];
      ok := ModifyLabels(messageId, Some([dest.value]), Some(remove));
    }
  }
}
