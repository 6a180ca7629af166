/** The catalog controller: the property list and the loading, error,
    form and view flags, with the handlers that replace them. The backend
    is represented by its answers, passed to each handler. */
module App {
  import opened Wrappers
  import opened PropertyRecord
  import Sequences
  import PropertyForm

  datatype View = MapMode | ListMode

  /** What reading the whole collection gave. */
  datatype ReadAnswer = ReadOk(docs: seq<Property>) | ReadFailed

  /** What storing a new document gave: the id the backend assigned, or a
      failure. */
  datatype AddAnswer = Stored(docId: string) | StoreFailed

  /** What the main panel shows. */
  datatype Screen = LoadingNotice | ErrorNotice(message: string) | MapOf(shown: seq<Property>) | ListOf(listed: seq<Property>)

  const LoadErrorMessage: string := "Nie można połączyć z bazą danych. Używam danych lokalnych."

  /** The record the backend returns for a submission: the submission's own
      fields, `coordinates` built from its `lat`/`lng`, and the assigned id
      unless the submission already carries one (its own `id` is spread
      after the assigned one). */
  function StoredRecord(s: Submission, docId: string): (p: Property)
    ensures p.coordinates == Coordinates(s.lat, s.lng)
    ensures p.id == (if s.id.Some? then s.id else Some(docId))
    ensures p.name == s.name && p.price == s.price && p.propertyType == s.propertyType
    ensures p.transactionType == s.transactionType && p.metrics == s.metrics && p.details == s.details
    ensures p.link == s.link && p.imageUrl == s.imageUrl && p.currency == s.currency
  {
    Property(if s.id.Some? then s.id else Some(docId), s.name, s.link, s.imageUrl, s.price, s.currency,
             s.propertyType, s.transactionType, Coordinates(s.lat, s.lng), s.metrics, s.details)
  }

  /** `properties.filter(p => p.id !== id)`. */
  function RemoveById(ps: seq<Property>, id: string): (r: seq<Property>)
    ensures Sequences.IsSubsequence(r, ps)
    ensures forall p :: p in r ==> p.id != Some(id)
    ensures forall p: Property :: p.id != Some(id) ==> multiset(r)[p] == multiset(ps)[p]
  {
    Sequences.Filter(ps, (p: Property) => p.id != Some(id))
  }

  /** Deleting an id no record has changes nothing. */
  lemma RemoveAbsentId(ps: seq<Property>, id: string)
    requires forall p :: p in ps ==> p.id != Some(id)
    ensures RemoveById(ps, id) == ps
  {
    Sequences.FilterKeepsAll(ps, (p: Property) => p.id != Some(id));
  }

  /** A second delete of the same id changes nothing. */
  lemma RemoveTwice(ps: seq<Property>, id: string)
    ensures RemoveById(RemoveById(ps, id), id) == RemoveById(ps, id)
  {
    Sequences.FilterIdempotent(ps, (p: Property) => p.id != Some(id));
  }

  /** Adding a new submission and then deleting the id the backend gave it
      restores the list, when no record had that id. */
  lemma AddThenRemove(ps: seq<Property>, s: Submission, docId: string)
    requires s.id == None
    requires forall p :: p in ps ==> p.id != Some(docId)
    ensures RemoveById(ps + [StoredRecord(s, docId)], docId) == ps
  {
    var keep := (p: Property) => p.id != Some(docId);
    Sequences.FilterAppend(ps, [StoredRecord(s, docId)], keep);
    RemoveAbsentId(ps, docId);
  }

  /** A record the form accepts reaches the catalog with non-zero
      coordinates and with the id the form kept. */
  lemma SubmittedRecord(s: Submission, f: PropertyForm.FormData, property: Option<Property>, answer: PropertyForm.GeocodeAnswer, docId: string)
    requires PropertyForm.SubmitForm(f, property, answer) == PropertyForm.Accepted(s)
    ensures StoredRecord(s, docId).coordinates.lat != 0.0 && StoredRecord(s, docId).coordinates.lng != 0.0
    ensures StoredRecord(s, docId).name == f.name
    ensures property.Some? && property.value.id.Some? && property.value.id != Some("") ==> StoredRecord(s, docId).id == property.value.id
    ensures property.None? ==> StoredRecord(s, docId).id == Some(docId)
  {
    assert s.id == PropertyForm.KeptId(property);
  }

  /** The index of the first seed write the backend rejects at or after
      `i`, or `n` when the writes `i` to `n - 1` all succeed. */
  function FirstRejectedFrom(ok: nat -> bool, i: nat, n: nat): (k: nat)
    requires i <= n
    ensures i <= k <= n
    ensures forall j :: i <= j < k ==> ok(j)
    ensures k < n ==> !ok(k)
    decreases n - i
  {
    if i == n then n else if !ok(i) then i else FirstRejectedFrom(ok, i + 1, n)
  }

  function FirstRejected(ok: nat -> bool, n: nat): (k: nat)
    ensures k <= n
    ensures forall j :: 0 <= j < k ==> ok(j)
    ensures k < n ==> !ok(k)
  {
    FirstRejectedFrom(ok, 0, n)
  }

  class Catalog {
    /** The bundled dataset used when the backend is empty or unreachable. */
    const seed: seq<Property>
    var properties: seq<Property>
    var view: View
    var showForm: bool
    var loading: bool
    var error: Option<string>

    constructor (seed: seq<Property>)
      ensures this.seed == seed
      ensures properties == [] && view == MapMode && !showForm && loading && error == None
    {
      this.seed := seed;
      properties := [];
      view := MapMode;
      showForm := false;
      loading := true;
      error := None;
    }

    /** What the main panel shows: the loading notice while loading, then
        the error if there is one, and only otherwise the records, in the
        chosen view. */
    function MainContent(): (c: Screen)
      reads this
      ensures c == LoadingNotice <==> loading
      ensures c.ErrorNotice? <==> !loading && error.Some?
      ensures c.ErrorNotice? ==> c.message == error.value
      ensures c.MapOf? <==> !loading && error.None? && view == MapMode
      ensures c.ListOf? <==> !loading && error.None? && view == ListMode
      ensures c.MapOf? ==> c.shown == properties
      ensures c.ListOf? ==> c.listed == properties
    {
      if loading then LoadingNotice
      else if error.Some? then ErrorNotice(error.value)
      else match view
        case MapMode => MapOf(properties)
        case ListMode => ListOf(properties)
    }

    /** Startup load. A non-empty read becomes the list; an empty read
        writes the seed entries to the backend one by one, in order, and the
        list becomes the seed; a failed read or a rejected write sets the
        error and the list becomes the seed. `seedWriteOk(i)` says whether
        the backend accepts the i-th seed write; `written` lists the writes
        attempted. */
    method LoadProperties(read: ReadAnswer, seedWriteOk: nat -> bool) returns (written: seq<Property>)
      modifies this
      ensures !loading && view == old(view) && showForm == old(showForm)
      ensures read.ReadFailed? ==>
        written == [] && properties == seed && error == Some(LoadErrorMessage)
      ensures read.ReadOk? && |read.docs| > 0 ==>
        written == [] && properties == read.docs && error == old(error)
      ensures read.ReadOk? && |read.docs| == 0 ==>
        var k := FirstRejected(seedWriteOk, |seed|);
        && properties == seed
        && written == seed[..if k < |seed| then k + 1 else k]
        && error == (if k < |seed| then Some(LoadErrorMessage) else old(error))
      ensures error == Some(LoadErrorMessage) ==> MainContent() == ErrorNotice(LoadErrorMessage)
    {
      loading := true;
      written := [];
      match read {
        case ReadFailed =>
          error := Some(LoadErrorMessage);
          properties := seed;
        case ReadOk(docs) =>
          if |docs| == 0 {
            var i := 0;
            var failed := false;
            while i < |seed| && !failed
              invariant 0 <= i <= |seed|
              invariant written == seed[..i]
              invariant failed ==> 0 < i && !seedWriteOk(i - 1)
              invariant forall j :: 0 <= j < (if failed then i - 1 else i) ==> seedWriteOk(j)
            {
              written := written + [seed[i]];
              failed := !seedWriteOk(i);
              i := i + 1;
            }
            ghost var k := FirstRejected(seedWriteOk, |seed|);
            assert failed ==> k == i - 1;
            assert !failed ==> k == |seed| && i == |seed|;
            if failed {
              error := Some(LoadErrorMessage);
            }
            properties := seed;
          } else {
            properties := docs;
          }
      }
      loading := false;
    }

    /** The form's submit callback: on success the stored record is
        appended and the form closes; on failure nothing changes. */
    method AddProperty(s: Submission, answer: AddAnswer) returns (saved: Option<Property>)
      modifies this
      ensures answer.Stored? ==> saved == Some(StoredRecord(s, answer.docId))
      ensures answer.Stored? ==> properties == old(properties) + [saved.value] && !showForm
      ensures answer.StoreFailed? ==> saved == None && properties == old(properties) && showForm == old(showForm)
      ensures view == old(view) && loading == old(loading) && error == old(error)
    {
      match answer {
        case Stored(docId) =>
          var record := StoredRecord(s, docId);
          properties := properties + [record];
          showForm := false;
          saved := Some(record);
        case StoreFailed =>
          saved := None;
      }
    }

    /** Delete by id: on success every record with that id leaves the list,
        the others stay in order; on failure nothing changes. */
    method DeleteProperty(id: string, ok: bool)
      modifies this
      ensures properties == if ok then RemoveById(old(properties), id) else old(properties)
      ensures view == old(view) && showForm == old(showForm) && loading == old(loading) && error == old(error)
    {
      if ok {
        properties := RemoveById(properties, id);
      }
    }

    /** The view toggle button. */
    method ToggleView()
      modifies this
      ensures view == (if old(view) == MapMode then ListMode else MapMode)
      ensures properties == old(properties) && showForm == old(showForm) && loading == old(loading) && error == old(error)
    {
      view := if view == MapMode then ListMode else MapMode;
    }

    /** The add/cancel button. */
    method ToggleForm()
      modifies this
      ensures showForm == !old(showForm)
      ensures properties == old(properties) && view == old(view) && loading == old(loading) && error == old(error)
    {
      showForm := !showForm;
    }

    /** The form's cancel callback. */
    method CancelForm()
      modifies this
      ensures !showForm
      ensures properties == old(properties) && view == old(view) && loading == old(loading) && error == old(error)
    {
      showForm := false;
    }
  }
}
