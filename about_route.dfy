/**
 * `/api/about`: a single About document. GET creates the empty document on
 * first read; PUT overwrites all four fields from the body, creating the
 * document when there is none.
 */
module AboutRoute {

  import opened Wrappers
  import opened Schema
  import opened Http
  import opened AboutModel

  const FetchFailed := "Failed to fetch About data"
  const UpdateFailed := "Failed to update About data"

  /** The document GET creates passes the schema. */
  lemma EmptyAboutValid()
    ensures AboutValid(EmptyAbout)
  {
  }

  /** What a PUT body must satisfy for its document to be saved. */
  lemma PutValidIff(body: AboutData)
    ensures AboutValid(WithDefaults(body)) <==>
      && MaxLength(OrEmpty(body.bio), 1000) && MaxLength(OrEmpty(body.resumeLink), 500)
      && (body.skills.Some? ==> forall i :: 0 <= i < |body.skills.value| ==> MaxLength(body.skills.value[i], 50))
      && (body.education.Some? ==> forall i :: 0 <= i < |body.education.value| ==> EducationValid(body.education.value[i]))
  {
  }

  /** The About collection: at most one document. */
  class AboutStore {
    var docs: seq<About>

    predicate Valid()
      reads this
    {
      |docs| <= 1 && forall i :: 0 <= i < |docs| ==> AboutValid(docs[i])
    }

    constructor ()
      ensures Valid() && docs == []
    {
      docs := [];
    }

    /** GET: the document, created empty and saved when the store has none. */
    method Get(storeFails: bool) returns (r: Response<About>)
      requires Valid()
      modifies this
      ensures Valid()
      ensures storeFails ==> r == Response(500, ErrorMessage(FetchFailed)) && docs == old(docs)
      ensures !storeFails && old(docs) == [] ==> docs == [EmptyAbout] && r == Response(200, Document(EmptyAbout))
      ensures !storeFails && old(docs) != [] ==> docs == old(docs) && r == Response(200, Document(docs[0]))
    {
      if storeFails {
        return Response(500, ErrorMessage(FetchFailed));
      }
      var about: About;
      if docs == [] {
        about := EmptyAbout;
        EmptyAboutValid();
        docs := [about];
      } else {
        about := docs[0];
      }
      r := Response(200, Document(about));
    }

    /**
     * PUT: the four fields of the document, present or new, are assigned from
     * the body with their defaults, and the document is saved. The new state
     * depends on the body alone.
     */
    method Put(body: Option<AboutData>, storeFails: bool) returns (r: Response<About>)
      requires Valid()
      modifies this
      ensures Valid()
      ensures r.status == 200 <==> body.Some? && AboutValid(WithDefaults(body.value)) && !storeFails
      ensures r.status == 200 ==> docs == [WithDefaults(body.value)] && r.body == Document(WithDefaults(body.value))
      ensures r.status != 200 ==> r == Response(500, ErrorMessage(UpdateFailed)) && docs == old(docs)
    {
      if body.None? {
        return Response(500, ErrorMessage(UpdateFailed));
      }
      var data := body.value;
      var about := if docs == [] then EmptyAbout else docs[0];
      about := about.(bio := OrEmpty(data.bio));
      about := about.(skills := data.skills.GetOr([]));
      about := about.(education := data.education.GetOr([]));
      about := about.(resumeLink := OrEmpty(data.resumeLink));
      if !AboutValid(about) || storeFails {
        return Response(500, ErrorMessage(UpdateFailed));
      }
      docs := [about];
      r := Response(200, Document(about));
    }
  }

  /** A GET after a successful PUT returns what the PUT wrote. */
  method PutThenGet(store: AboutStore, body: AboutData) returns (put: Response<About>, got: Response<About>)
    requires store.Valid()
    modifies store
    ensures put.status == 200 ==> got == Response(200, Document(WithDefaults(body))) && store.docs == [WithDefaults(body)]
  {
    put := store.Put(Some(body), false);
    got := store.Get(false);
  }
}
