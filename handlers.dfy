/**
 * The decision logic of the request handlers of app.py: which redirect
 * `/pagepile/` issues, which page `/pagepile/<id>/` renders, and in which order
 * `/pagepile/<id>/filter` checks its request before creating a new pile.
 *
 * The PagePile service and the wiki API are function parameters: `load` is
 * `load_pagepile` on an id, `create` is `create_pagepile` on a domain and a list of
 * titles, `api` is the wiki API as `load_files` uses it.
 */
module Handlers {
  import opened Wrappers
  import opened Forms
  import opened Csrf
  import opened PagepileUrls
  import opened FileLookup

  /** A pile as `load_pagepile` returns it: its wiki domain and its titles. */
  datatype Pile = Pile(domain: string, pages: seq<string>)

  type PileLoader = int -> Option<Pile>
  type PileCreator = (string, seq<string>) -> int

  const CommonsDomain: string := "commons.wikimedia.org"
  const PagePileIdArg: string := "page_pile_id"
  const FileField: string := "file"

  /** Where `/pagepile/` redirects to. */
  datatype RedirectTarget = IndexPage | PileView(id: string)

  /** `pagepile_redirect()` on the query arguments of the request. */
  function PagepileRedirect(args: Form): (target: RedirectTarget)
    ensures target == IndexPage <==>
      FormGet(args, PagePileIdArg) == None || FormGet(args, PagePileIdArg) == Some("")
    ensures target.PileView? ==> FormGet(args, PagePileIdArg) == Some(target.id)
  {
    var id := FormGet(args, PagePileIdArg);
    if id.None? || id.value == "" then IndexPage else PileView(id.value)
  }

  /** The pages `/pagepile/<id>/` renders. */
  datatype ViewPage =
    | NoSuchPile(missingId: int)
    | NotCommonsPile(foreignId: int, foreignDomain: string)
    | PileFiles(id: int, domain: string, files: Files)

  function ViewStatus(page: ViewPage): int
  {
    match page
    case NoSuchPile(_) => 404
    case NotCommonsPile(_, _) => 400
    case PileFiles(_, _, _) => 200
  }

  /** `pagepile(id)`. */
  function Pagepile(id: int, load: PileLoader, api: Api): (page: ViewPage)
    ensures ViewStatus(page) == 404 <==> load(id).None?
    ensures ViewStatus(page) == 400 <==> load(id).Some? && load(id).value.domain != CommonsDomain
    ensures ViewStatus(page) == 404 ==> page == NoSuchPile(id)
    ensures ViewStatus(page) == 400 ==> page == NotCommonsPile(id, load(id).value.domain)
    ensures ViewStatus(page) == 200 ==>
      load(id).Some? && page == PileFiles(id, CommonsDomain, LoadedFiles(load(id).value.pages, api))
  {
    var pile := load(id);
    if pile.None? then NoSuchPile(id)
    else if pile.value.domain != CommonsDomain then NotCommonsPile(id, pile.value.domain)
    else PileFiles(id, pile.value.domain, LoadedFiles(pile.value.pages, api))
  }

  /**
   * A missing or non-Commons pile never reaches `load_files`: the page rendered is
   * the same whatever the wiki API would answer.
   */
  lemma PagepileSkipsLookupOnError(id: int, load: PileLoader, api1: Api, api2: Api)
    requires ViewStatus(Pagepile(id, load, api1)) != 200
    ensures Pagepile(id, load, api1) == Pagepile(id, load, api2)
  {
  }

  /** The responses of `/pagepile/<id>/filter`. */
  datatype FilterResponse =
    | CsrfError
    | FilterNoSuchPile(missingId: int)
    | NoChanges
    | NewPileRedirect(domain: string, pages: seq<string>, location: string)

  function FilterStatus(response: FilterResponse): int
  {
    match response
    case CsrfError => 400
    case FilterNoSuchPile(_) => 404
    case NoChanges => 200
    case NewPileRedirect(_, _, _) => 302
  }

  /** `filter_pagepile(id)` on the session's contents and the submitted form. */
  function FilterPagepile(id: int, session: map<string, string>, form: Form,
                          load: PileLoader, create: PileCreator): (response: FilterResponse)
    ensures response == CsrfError <==> !SubmittedRequestValid(session, form)
    ensures response.FilterNoSuchPile? <==> SubmittedRequestValid(session, form) && load(id).None?
    ensures response.FilterNoSuchPile? ==> response.missingId == id
    ensures response == NoChanges <==>
      SubmittedRequestValid(session, form) && load(id).Some? &&
      (|FormGetList(form, FileField)| == 0 ||
       |FormGetList(form, FileField)| >= |load(id).value.pages|)
    ensures response.NewPileRedirect? ==>
      load(id).Some? &&
      0 < |response.pages| < |load(id).value.pages| &&
      response.domain == load(id).value.domain &&
      response.pages == FormGetList(form, FileField) &&
      response.location == PagepileUrl(create(response.domain, response.pages))
  {
    if !SubmittedRequestValid(session, form) then CsrfError
    else
      var originalPile := load(id);
      if originalPile.None? then FilterNoSuchPile(id)
      else
        var newPages := FormGetList(form, FileField);
        if |newPages| == 0 || |newPages| >= |originalPile.value.pages| then NoChanges
        else
          var domain := originalPile.value.domain;
          NewPileRedirect(domain, newPages, PagepileUrl(create(domain, newPages)))
  }

  /**
   * A request failing the CSRF check is rejected before any pile is loaded or
   * created: the response is the same whatever the PagePile service would do.
   */
  lemma FilterChecksCsrfFirst(id: int, session: map<string, string>, form: Form,
                              load1: PileLoader, create1: PileCreator,
                              load2: PileLoader, create2: PileCreator)
    requires !SubmittedRequestValid(session, form)
    ensures FilterPagepile(id, session, form, load1, create1) == CsrfError
    ensures FilterPagepile(id, session, form, load1, create1) ==
            FilterPagepile(id, session, form, load2, create2)
  {
  }

  /**
   * A pile is created only for a strictly smaller non-empty selection; every other
   * response is the same whatever `create_pagepile` would do.
   */
  lemma FilterCreatesOnlyForSmallerSelection(id: int, session: map<string, string>, form: Form,
                                             load: PileLoader, create1: PileCreator, create2: PileCreator)
    requires !FilterPagepile(id, session, form, load, create1).NewPileRedirect?
    ensures FilterPagepile(id, session, form, load, create1) ==
            FilterPagepile(id, session, form, load, create2)
  {
  }

  /** Each different new pile id gives a different redirect location. */
  lemma FilterRedirectNamesNewPile(id: int, session: map<string, string>, form: Form,
                                   load: PileLoader, create1: PileCreator, create2: PileCreator)
    requires FilterPagepile(id, session, form, load, create1).NewPileRedirect?
    ensures var r1 := FilterPagepile(id, session, form, load, create1);
      var r2 := FilterPagepile(id, session, form, load, create2);
      r1.location == r2.location <==>
        create1(r1.domain, r1.pages) == create2(r1.domain, r1.pages)
  {
    var r1 := FilterPagepile(id, session, form, load, create1);
    PagepileUrlInjective(create1(r1.domain, r1.pages), create2(r1.domain, r1.pages));
  }
}
