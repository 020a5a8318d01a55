/**
 * The services hook (`useServices`): the service list fetched once from the services
 * endpoint, with `loading` and `error` flags, and `getService`, which finds a service by
 * its slug or its name after trimming and lower-casing both sides.
 */
module Services {
  import opened Wrappers
  import opened Text

  /** A service row; `slug` and `nombre` are nullable columns. */
  datatype Service = Service(id: string, slug: Option<string>, nombre: Option<string>)

  /** `getService`'s three answers: `null` on an empty list, `undefined` when nothing matches. */
  datatype Lookup = Null | Undefined | Found(service: Service)

  const ConnectError: string := "Error al conectar con el servidor"
  const UnknownError: string := "Error desconocido"

  /** `x.toString().trim().toLowerCase()`. */
  function Normalize(s: string): string {
    Lower(Trim(s))
  }

  /** The `find` test: the normalised slug or the normalised name equals `searchId`. */
  predicate Names(s: Service, searchId: string) {
    (s.slug.Some? && Normalize(s.slug.value) == searchId)
    || (s.nombre.Some? && Normalize(s.nombre.value) == searchId)
  }

  /** The index of the first service the test accepts, or |services|. */
  function FirstNamed(services: seq<Service>, searchId: string): (k: nat)
    ensures k <= |services|
    ensures k < |services| ==> Names(services[k], searchId)
    ensures forall j :: 0 <= j < k ==> !Names(services[j], searchId)
  {
    if services == [] then 0
    else if Names(services[0], searchId) then 0
    else 1 + FirstNamed(services[1..], searchId)
  }

  /** `getService(identifier)`. */
  function GetService(services: seq<Service>, identifier: string): (r: Lookup)
    ensures r.Null? <==> services == []
    ensures r.Undefined? <==> services != [] && forall s :: s in services ==> !Names(s, Normalize(identifier))
    ensures r.Found? ==>
      exists k :: 0 <= k < |services| && services[k] == r.service && Names(r.service, Normalize(identifier))
                  && forall j :: 0 <= j < k ==> !Names(services[j], Normalize(identifier))
  {
    if services == [] then Null
    else
      var k := FirstNamed(services, Normalize(identifier));
      if k < |services| then Found(services[k]) else Undefined
  }

  /** What the fetch produced: rows, a non-ok response, or a thrown value (an `Error`'s message or none). */
  datatype FetchOutcome = Loaded(data: seq<Service>) | NotOk | Threw(message: Option<string>)

  /** The hook's state. */
  class ServicesHook {
    var services: seq<Service>
    var loading: bool
    var error: Option<string>

    constructor ()
      ensures services == [] && loading && error == None
    {
      services := [];
      loading := true;
      error := None;
    }

    /**
     * `fetchServices`: on rows the list is replaced; a non-ok response and a thrown error
     * set the message and keep the list; in every case `loading` ends false. A success
     * does not clear an earlier error.
     */
    method FetchServices(outcome: FetchOutcome)
      modifies this
      ensures !loading
      ensures outcome.Loaded? ==> services == outcome.data && error == old(error)
      ensures outcome.NotOk? ==> services == old(services) && error == Some(ConnectError)
      ensures outcome.Threw? ==> services == old(services) && error == Some(outcome.message.GetOr(UnknownError))
    {
      match outcome {
        case Loaded(data) =>
          services := data;
        case NotOk =>
          error := Some(ConnectError);
        case Threw(message) =>
          error := Some(message.GetOr(UnknownError));
      }
      loading := false;
    }
  }

  // ------------------------------------------------------------ lemmas

  /**
   * Lower-casing never changes the normalisation; upper-casing does not either on text that
   * folds back (Latin-1 without 'ß' and 'µ').
   */
  lemma NormalizeIgnoresCase(s: string)
    ensures Normalize(Lower(s)) == Normalize(s)
    ensures FoldsBack(s) ==> Normalize(Upper(s)) == Normalize(s)
  {
    TrimLower(s);
    TrimLower(Lower(s));
    LowerIdempotent(s);
    if FoldsBack(s) {
      TrimLower(Upper(s));
      LowerUpper(s);
    }
  }

  /** An identifier lower-cased, or upper-cased when it folds back, finds the same service. */
  lemma GetServiceIgnoresCase(services: seq<Service>, identifier: string)
    ensures GetService(services, Lower(identifier)) == GetService(services, identifier)
    ensures FoldsBack(identifier) ==>
      GetService(services, Upper(identifier)) == GetService(services, identifier)
  {
    NormalizeIgnoresCase(identifier);
  }

  /**
   * 'ß' is not folded: asking by the upper-cased name of a service whose name has a 'ß'
   * ("STRASSE" for "straße") does not find it.
   */
  lemma SharpSIsNotFolded(service: Service, name: string)
    requires service.slug.None? && service.nombre == Some(name) && 'ß' in name
    ensures GetService([service], Upper(name)) == Undefined
  {
    NormalizeKeepsSharpS(name);
    NormalizeKeepsSharpS(Upper(name));
    UpperHasNoSharpS(name);
    assert Normalize(name) != Normalize(Upper(name));
  }

  /** Normalising neither creates nor removes a 'ß'. */
  lemma NormalizeKeepsSharpS(s: string)
    ensures 'ß' in Normalize(s) <==> 'ß' in s
  {
    TrimKeepsNonSpace(s, 'ß');
    LowerKeepsSharpS(Trim(s));
  }

  /** White space around the identifier does not change the answer. */
  lemma GetServiceIgnoresPadding(services: seq<Service>, pre: string, identifier: string, post: string)
    requires Blank(pre) && Blank(post)
    ensures GetService(services, pre + identifier + post) == GetService(services, identifier)
  {
    TrimPadding(pre, identifier, post);
  }

  /** Asking by a service's own slug finds a service: that one or an earlier one that also matches. */
  lemma SlugIsFound(services: seq<Service>, k: nat, identifier: string)
    requires k < |services| && services[k].slug == Some(identifier)
    ensures GetService(services, identifier).Found?
  {
    assert Names(services[k], Normalize(identifier));
  }
}
