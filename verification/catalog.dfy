/** The LumenForge catalogue services (Java): categories, maintenance
    statuses and vendors.  The three share one shape: a search that is
    skipped for a blank query, and create / update / delete over a table of
    named entries whose name is required and stored trimmed.  Categories
    and maintenance statuses also carry an optional trimmed description;
    vendors have a name only.  The JPA repository is an in-memory table
    keyed by the generated id. */
module Catalog {
  import opened Wrappers
  import opened Text

  datatype Fault = IllegalArgument(message: string) | EntityNotFound(message: string)

  /** `normalizeRequired`: a null or blank value is refused, naming the
      field; any other value is stored trimmed. */
  function NormalizeRequired(value: Option<string>, field: string): (r: Result<string, Fault>)
    ensures r.Failure? <==> value.None? || AllStripped(value.value, JavaTrimmable)
    ensures r.Failure? ==> r.error == IllegalArgument(field + " must not be blank")
    ensures r.Success? ==> r.value != [] && IsTrimmed(r.value, JavaTrimmable)
  {
    if value.None? || (TrimEmptyIffAllStripped(value.value, JavaTrimmable); JavaTrim(value.value) == [])
    then Failure(IllegalArgument(field + " must not be blank"))
    else Success(JavaTrim(value.value))
  }

  /** `normalizeOptional`: null and blank values both become null, any
      other value its trimmed form. */
  function NormalizeOptional(value: Option<string>): (r: Option<string>)
    ensures r.None? <==> value.None? || AllStripped(value.value, JavaTrimmable)
    ensures r.Some? ==> r.value != [] && IsTrimmed(r.value, JavaTrimmable)
  {
    if value.None? then None
    else
      TrimEmptyIffAllStripped(value.value, JavaTrimmable);
      var t := JavaTrim(value.value);
      if t == [] then None else Some(t)
  }

  /** Normalising is idempotent: a stored value normalises to itself, so
      saving an entry a second time changes nothing. */
  lemma NormalizeIdempotent(value: Option<string>, field: string)
    ensures var r := NormalizeRequired(value, field);
      r.Success? ==> NormalizeRequired(Some(r.value), field) == r
    ensures var o := NormalizeOptional(value);
      NormalizeOptional(o) == o
  {
    if value.Some? {
      var t := JavaTrim(value.value);
      TrimIdempotent(value.value, JavaTrimmable);
      assert JavaTrim(t) == t;
      if t != [] {
        assert NormalizeRequired(Some(t), field) == Success(t);
        assert NormalizeOptional(Some(t)) == Some(t);
      }
    }
  }

  /** The optional and required forms agree on every value the required
      one accepts, and the optional one maps a refused value to null. */
  lemma OptionalAgreesWithRequired(value: Option<string>, field: string)
    ensures NormalizeRequired(value, field).Success? ==>
      NormalizeOptional(value) == Some(NormalizeRequired(value, field).value)
    ensures NormalizeRequired(value, field).Failure? ==> NormalizeOptional(value) == None
  {
  }

  /** The answer of `search`: an empty page, or a similarity search run
      with the given text. */
  datatype SearchPlan = EmptyPage | SimilaritySearch(query: string)

  /** A null or blank query gives an empty page without a repository
      call; any other query is searched trimmed. */
  function Search(query: Option<string>): (r: SearchPlan)
    ensures r.EmptyPage? <==> query.None? || AllStripped(query.value, JavaTrimmable)
    ensures r.SimilaritySearch? ==> r.query != [] && r.query == NormalizeOptional(query).value
  {
    if query.None? then EmptyPage
    else
      TrimEmptyIffAllStripped(query.value, JavaTrimmable);
      if JavaTrim(query.value) == [] then EmptyPage
      else SimilaritySearch(JavaTrim(query.value))
  }

  datatype Entry = Entry(name: string, description: Option<string>)

  /** A create or update request; both fields may be null.  Vendor
      requests carry no description. */
  datatype Request = Request(name: Option<string>, description: Option<string>)

  /** Every stored name is non-empty and trimmed, and every stored
      description is absent or non-empty and trimmed. */
  predicate WellFormed(e: Entry) {
    e.name != [] && IsTrimmed(e.name, JavaTrimmable) &&
    (e.description.Some? ==> e.description.value != [] && IsTrimmed(e.description.value, JavaTrimmable))
  }

  /** One of the three services: `entityName` is "Category",
      "MaintenanceStatus" or "Vendor", and `hasDescription` says whether the
      entity has a description. */
  class CatalogService {
    const entityName: string
    const hasDescription: bool
    var rows: map<int, Entry>
    var nextId: int

    predicate Valid()
      reads this
    {
      (forall id :: id in rows ==> id < nextId && WellFormed(rows[id])) &&
      (!hasDescription ==> forall id :: id in rows ==> rows[id].description.None?)
    }

    constructor (entityName: string, hasDescription: bool)
      ensures this.entityName == entityName && this.hasDescription == hasDescription
      ensures rows == map[] && nextId == 1 && Valid()
    {
      this.entityName := entityName;
      this.hasDescription := hasDescription;
      rows := map[];
      nextId := 1;
    }

    /** `applyRequest`: the normalised name and, where the entity has
        one, the normalised description. */
    function Apply(entry: Entry, request: Request): (r: Result<Entry, Fault>)
      reads this
      ensures r.Failure? <==> NormalizeRequired(request.name, entityName + ".name").Failure?
      ensures r.Failure? ==> r.error == NormalizeRequired(request.name, entityName + ".name").error
      ensures r.Success? ==> r.value.name == NormalizeRequired(request.name, entityName + ".name").value
      ensures r.Success? && hasDescription ==> r.value.description == NormalizeOptional(request.description)
      ensures r.Success? && !hasDescription ==> r.value.description == entry.description
    {
      match NormalizeRequired(request.name, entityName + ".name")
      case Failure(e) => Failure(e)
      case Success(name) =>
        var entry := entry.(name := name);
        if hasDescription then Success(entry.(description := NormalizeOptional(request.description)))
        else Success(entry)
    }

    function NotFound(id: int): Fault
      reads this
    {
      EntityNotFound(entityName + " not found: id=" + IntToString(id))
    }

    /** A valid request is stored under a fresh id; a blank name is
        refused before anything is saved. */
    method Create(request: Request) returns (r: Result<int, Fault>)
      requires Valid()
      modifies this
      ensures Valid()
      ensures r.Failure? <==> NormalizeRequired(request.name, entityName + ".name").Failure?
      ensures r.Failure? ==> (rows == old(rows) && nextId == old(nextId) &&
        r.error == NormalizeRequired(request.name, entityName + ".name").error)
      ensures r.Success? ==> (r.value == old(nextId) && r.value !in old(rows) &&
        rows == old(rows)[r.value := Apply(Entry([], None), request).value] &&
        nextId == old(nextId) + 1)
    {
      var applied := Apply(Entry([], None), request);
      if applied.Failure? {
        return Failure(applied.error);
      }
      assert WellFormed(applied.value);
      var id := nextId;
      rows := rows[id := applied.value];
      nextId := nextId + 1;
      return Success(id);
    }

    /** Re-applies a request to an existing entry; an unknown id or a
        blank name changes nothing. */
    method Update(id: int, request: Request) returns (r: Result<Entry, Fault>)
      requires Valid()
      modifies this
      ensures Valid() && nextId == old(nextId)
      ensures id !in old(rows) ==> r == Failure(NotFound(id)) && rows == old(rows)
      ensures id in old(rows) ==> r == Apply(old(rows)[id], request)
      ensures r.Success? ==> rows == old(rows)[id := r.value]
      ensures r.Failure? ==> rows == old(rows)
    {
      if id !in rows {
        return Failure(NotFound(id));
      }
      r := Apply(rows[id], request);
      if r.Success? {
        rows := rows[id := r.value];
      }
    }

    /** Removes an existing entry; an unknown id changes nothing. */
    method Delete(id: int) returns (r: Result<(), Fault>)
      requires Valid()
      modifies this
      ensures Valid() && nextId == old(nextId)
      ensures id !in old(rows) ==> r == Failure(NotFound(id)) && rows == old(rows)
      ensures id in old(rows) ==> r == Success(()) && rows == old(rows) - {id}
    {
      if id !in rows {
        return Failure(NotFound(id));
      }
      rows := rows - {id};
      return Success(());
    }
  }

  /** Applying the same request twice stores what applying it once does. */
  lemma ApplyTwice(service: CatalogService, entry: Entry, request: Request)
    ensures var once := service.Apply(entry, request);
      once.Success? ==> service.Apply(once.value, request) == once
  {
  }
}
