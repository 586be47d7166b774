/**
 * The definition of a manual (webhook) action as configured on the server
 * (`model.ManualActionDefinition`) and its validation.
 */
module ManualActionModel {
  import opened Wrappers
  import opened Text

  /** One input value collected from the UI. */
  datatype Field = Field(
    key: string,
    labelText: string,
    required: bool,
    placeholder: string,
    default: string,
    fieldType: string)

  /** The outgoing request a definition describes. */
  datatype RequestDefinition = RequestDefinition(
    url: string,
    verb: string,
    bodyType: string,
    query: seq<Field>,
    headers: seq<Field>,
    body: seq<Field>,
    timeout: string)

  datatype Definition = Definition(
    id: string,
    title: string,
    description: string,
    request: RequestDefinition)

  /** Why a definition is unusable; each kind carries the definition's id
      in the server's message except `MissingId`. */
  datatype DefinitionError =
    | MissingId
    | MissingTitle
    | MissingUrl
    | InvalidUrl
    | MissingMethod
    | UnsupportedMethod

  /** The HTTP methods a definition may use. */
  const SupportedMethods: set<string> := {"GET", "POST", "PUT", "DELETE", "PATCH"}

  /** The method as checked: trimmed and upper-cased. */
  function NormalizedMethod(verb: string): string {
    ToUpper(TrimSpace(verb))
  }

  /** A value that is empty once surrounding white space is trimmed. */
  predicate Blank(s: string) {
    TrimSpace(s) == ""
  }

  predicate MethodSupported(verb: string) {
    NormalizedMethod(verb) in SupportedMethods
  }

  /** The first failing check, given the outcome of each check in order:
      blank id, blank title, blank URL, the URL parses, empty method,
      method supported. */
  function FirstFailure(blankId: bool, blankTitle: bool, blankUrl: bool, urlOk: bool,
                        noMethod: bool, supported: bool): (r: Option<DefinitionError>)
    ensures r == Some(MissingId) <==> blankId
    ensures r == Some(MissingTitle) <==> !blankId && blankTitle
    ensures r == Some(MissingUrl) <==> !blankId && !blankTitle && blankUrl
    ensures r == Some(InvalidUrl) <==> !blankId && !blankTitle && !blankUrl && !urlOk
    ensures r == Some(MissingMethod) <==> !blankId && !blankTitle && !blankUrl && urlOk && noMethod
    ensures r == Some(UnsupportedMethod) <==> !blankId && !blankTitle && !blankUrl && urlOk && !noMethod && !supported
    ensures r.None? <==> !blankId && !blankTitle && !blankUrl && urlOk && !noMethod && supported
  {
    if blankId then Some(MissingId)
    else if blankTitle then Some(MissingTitle)
    else if blankUrl then Some(MissingUrl)
    else if !urlOk then Some(InvalidUrl)
    else if noMethod then Some(MissingMethod)
    else if !supported then Some(UnsupportedMethod)
    else None
  }

  /** The checks of `Validate` over the four fields they read, in order;
      the first that fails decides the error. */
  function CheckFields(id: string, title: string, url: string, verb: string,
                       urlParses: string -> bool): (r: Option<DefinitionError>)
    ensures r == Some(MissingId) <==> Blank(id)
    ensures r == Some(MissingTitle) <==> !Blank(id) && Blank(title)
    ensures r == Some(MissingUrl) <==> !Blank(id) && !Blank(title) && Blank(url)
    ensures r == Some(InvalidUrl) <==> !Blank(id) && !Blank(title) && !Blank(url) && !urlParses(url)
    ensures r == Some(MissingMethod) <==>
      !Blank(id) && !Blank(title) && !Blank(url) && urlParses(url) && NormalizedMethod(verb) == ""
    ensures r == Some(UnsupportedMethod) <==>
      && !Blank(id) && !Blank(title) && !Blank(url) && urlParses(url)
      && NormalizedMethod(verb) != "" && !MethodSupported(verb)
    ensures r.None? <==> !Blank(id) && !Blank(title) && !Blank(url) && urlParses(url) && MethodSupported(verb)
  {
    var m := NormalizedMethod(verb);
    FirstFailure(Blank(id), Blank(title), Blank(url), urlParses(url), m == "", m in SupportedMethods)
  }

  /** `ManualActionDefinition.Validate`; `urlParses` stands for the URL
      parser's verdict. The id, title and URL must be non-blank, the URL
      must parse, and the trimmed, upper-cased method must be supported. */
  function Validate(d: Definition, urlParses: string -> bool): (r: Option<DefinitionError>)
    ensures r.None? <==>
      && !Blank(d.id) && !Blank(d.title) && !Blank(d.request.url) && urlParses(d.request.url)
      && MethodSupported(d.request.verb)
    ensures r == Some(MissingId) <==> Blank(d.id)
    ensures r == Some(UnsupportedMethod) ==> NormalizedMethod(d.request.verb) !in SupportedMethods
  {
    CheckFields(d.id, d.title, d.request.url, d.request.verb, urlParses)
  }

  /** Normalizing a method twice is normalizing it once: upper-casing
      neither creates nor removes white space, and upper case stays upper
      case. */
  lemma NormalizedMethodIdempotent(verb: string)
    ensures NormalizedMethod(NormalizedMethod(verb)) == NormalizedMethod(verb)
  {
    var u := NormalizedMethod(verb);
    TrimSpaceEnds(verb);
    assert u == [] || (!IsSpace(u[0]) && !IsSpace(u[|u| - 1]));
    TrimSpaceKeeps(u);
    assert ToUpper(u) == u;
  }

  /** The method check ignores case and surrounding white space: any
      definition is judged exactly as the same definition with its method
      trimmed and upper-cased, so " post " passes as "POST" does. */
  lemma MethodCheckIgnoresCase(d: Definition, urlParses: string -> bool)
    ensures Validate(d, urlParses) == Validate(d.(request := d.request.(verb := NormalizedMethod(d.request.verb))), urlParses)
  {
    NormalizedMethodIdempotent(d.request.verb);
  }
}
