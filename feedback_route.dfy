/**
 * `/api/feedback`: GET lists every feedback, newest first; POST checks name
 * and message, forces the status to pending, stamps the server's time and
 * saves one document.
 */
module FeedbackRoute {

  import opened Wrappers
  import opened Schema
  import opened Lists
  import opened Http
  import opened Store
  import opened FeedbackModel

  const MissingFields := "Name and message are required"
  const CreateFailed := "Failed to create feedback"
  const FetchFailed := "Failed to fetch feedback"

  /** The parsed JSON body; a missing or null field is None. Any status it carries is ignored. */
  datatype FeedbackBody = FeedbackBody(
    name: Option<string>, email: Option<string>, message: Option<string>, status: Option<string>)

  predicate HasRequired(b: FeedbackBody) {
    Truthy(b.name) && Truthy(b.message)
  }

  /** The document `new Feedback({...})` builds at time `now`. */
  function Build(b: FeedbackBody, id: string, now: int): (f: Feedback)
    requires HasRequired(b)
    ensures f.id == id && f.name == b.name.value && f.message == b.message.value
    ensures f.email == OrEmpty(b.email)
    ensures f.status == Pending && f.createdAt == now
    ensures f.reply.None? && f.repliedAt.None?
  {
    Feedback(id, b.name.value, OrEmpty(b.email), b.message.value, Pending, None, None, now)
  }

  /** Whether the save succeeds: parsed body, required fields, schema lengths, a working store. */
  predicate Saves(body: Option<FeedbackBody>, id: string, now: int, storeFails: bool) {
    && body.Some? && HasRequired(body.value)
    && FeedbackValid(Build(body.value, id, now))
    && !storeFails
  }

  /** A body passes the schema exactly when its name, email and message fit their lengths. */
  lemma SavesIff(body: FeedbackBody, id: string, now: int)
    requires HasRequired(body)
    ensures FeedbackValid(Build(body, id, now)) <==>
      MaxLength(body.name.value, 100) && MaxLength(OrEmpty(body.email), 100) && MaxLength(body.message.value, 500)
  {
  }

  /**
   * A message of 300 emoji is 300 characters but 600 UTF-16 code units, over
   * the schema's 500: the save throws and the reply is 500.
   */
  lemma EmojiMessageRejected(id: string, now: int)
    ensures var message := seq(300, i => '\U{1F600}');
      PostResponse(Some(FeedbackBody(Some("Ana"), None, Some(message), None)), id, now, false)
        == Response(500, ErrorMessage(CreateFailed))
  {
    var message := seq(300, i => '\U{1F600}');
    JsLengthAstral(message);
  }

  /** POST's reply: 400 for a missing name or message, 201 with the document when saved, 500 otherwise. */
  function PostResponse(body: Option<FeedbackBody>, id: string, now: int, storeFails: bool): (r: Response<Feedback>)
    ensures r.status == 400 <==> body.Some? && !HasRequired(body.value)
    ensures r.status == 400 ==> r.body == ErrorMessage(MissingFields)
    ensures r.status == 201 <==> Saves(body, id, now, storeFails)
    ensures r.status == 201 ==> r.body == Document(Build(body.value, id, now))
    ensures r.status != 400 && r.status != 201 ==> r == Response(500, ErrorMessage(CreateFailed))
  {
    if body.Some? && !HasRequired(body.value) then Response(400, ErrorMessage(MissingFields))
    else if Saves(body, id, now, storeFails) then Response(201, Document(Build(body.value, id, now)))
    else Response(500, ErrorMessage(CreateFailed))
  }

  /** Whatever status the body asks for, a created feedback is pending, stamped with the server's time. */
  lemma CreatedIsPending(body: Option<FeedbackBody>, id: string, now: int, storeFails: bool)
    requires PostResponse(body, id, now, storeFails).status == 201
    ensures PostResponse(body, id, now, storeFails).body.doc.status == Pending
    ensures PostResponse(body, id, now, storeFails).body.doc.createdAt == now
    ensures FeedbackValid(PostResponse(body, id, now, storeFails).body.doc)
  {
  }

  /** The status in the body changes nothing about the reply. */
  lemma BodyStatusIgnored(body: FeedbackBody, other: Option<string>, id: string, now: int, storeFails: bool)
    ensures PostResponse(Some(body), id, now, storeFails) == PostResponse(Some(body.(status := other)), id, now, storeFails)
  {
  }

  /** The feedback collection. */
  class FeedbackStore {
    var records: seq<Feedback>
    var nextId: nat

    /** Every stored document passed the schema on save, and ids are unique. */
    predicate Valid()
      reads this
    {
      && (forall i :: 0 <= i < |records| ==> FeedbackValid(records[i]))
      && FreshIds(IdsOf(records, FeedbackId), nextId)
    }

    constructor ()
      ensures Valid() && records == []
    {
      records := [];
      nextId := 0;
    }

    /** GET: every document, newest first; nothing is written. */
    method Get(storeFails: bool) returns (r: Response<Feedback>)
      requires Valid()
      ensures storeFails ==> r == Response(500, ErrorMessage(FetchFailed))
      ensures !storeFails ==> r.status == 200 && r.body.Documents?
      ensures !storeFails ==> multiset(r.body.docs) == multiset(records)
      ensures !storeFails ==> SortedDesc(r.body.docs, CreatedAt)
      ensures !storeFails ==> r.body.docs == SortDesc(records, CreatedAt)
      ensures !storeFails ==> forall i :: 0 <= i < |r.body.docs| ==> IsStatus(r.body.docs[i].status)
    {
      if storeFails {
        return Response(500, ErrorMessage(FetchFailed));
      }
      var docs := SortDesc(records, CreatedAt);
      SortDescSorted(records, CreatedAt);
      forall i | 0 <= i < |docs| ensures IsStatus(docs[i].status) {
        assert docs[i] in multiset(records);
      }
      r := Response(200, Documents(docs));
    }

    /** POST at server time `now`: on 201 the store gains exactly the returned document; otherwise nothing changes. */
    method Post(body: Option<FeedbackBody>, now: int, storeFails: bool) returns (r: Response<Feedback>)
      requires Valid()
      modifies this
      ensures Valid()
      ensures r == PostResponse(body, IdFor(old(nextId)), now, storeFails)
      ensures r.status == 201 ==> records == old(records) + [r.body.doc]
      ensures r.status != 201 ==> records == old(records) && nextId == old(nextId)
    {
      r := PostResponse(body, IdFor(nextId), now, storeFails);
      if r.status == 201 {
        assert IdsOf(records + [r.body.doc], FeedbackId) == IdsOf(records, FeedbackId) + [IdFor(nextId)];
        AppendNextId(IdsOf(records, FeedbackId), nextId);
        records := records + [r.body.doc];
        nextId := nextId + 1;
      }
    }
  }
}
