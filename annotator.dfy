/**
 * The entry point of the part of the client that runs in an annotated page
 * (src/annotator/index.js): once the document has loaded it decides whether
 * this frame is the host frame, builds the Guest (always) and the Sidebar and
 * Notebook (host frame only) around one EventBus, and registers a `destroy`
 * listener on the sidebar `<link>` that tears everything down again.
 *
 * Guest, Sidebar, Notebook and EventBus are opaque: only what the entry point
 * hands them at construction is kept. Calls into them are logged in a ghost
 * history of `Call`s.
 */
module Annotator {
  import opened Wrappers
  import opened JsValues
  import opened Document

  datatype ReadyState = Loading | Interactive | Complete

  /** The scopes `getConfig` is asked for. */
  datatype Scope = AnnotatorScope | SidebarScope | NotebookScope

  /** A configuration object, reduced to the one field read here. */
  datatype Config = Config(subFrameIdentifier: JsValue)

  /** `annotatorConfig.subFrameIdentifier === null`: strict, so `undefined` is not a host frame. */
  predicate IsHostFrame(config: Config)
    ensures config.subFrameIdentifier.Undefined? ==> !IsHostFrame(config)
    ensures config.subFrameIdentifier.Str? ==> !IsHostFrame(config)
  {
    config.subFrameIdentifier.Null?
  }

  class EventBus {
    constructor ()
    {
    }
  }

  class Guest {
    const root: Element
    const bus: EventBus
    const config: Config

    constructor (root: Element, bus: EventBus, config: Config)
      ensures this.root == root && this.bus == bus && this.config == config
    {
      this.root := root;
      this.bus := bus;
      this.config := config;
    }
  }

  class Sidebar {
    const root: Element
    const bus: EventBus
    const guest: Guest
    const config: Config

    constructor (root: Element, bus: EventBus, guest: Guest, config: Config)
      ensures this.root == root && this.bus == bus && this.guest == guest && this.config == config
    {
      this.root := root;
      this.bus := bus;
      this.guest := guest;
      this.config := config;
    }
  }

  class Notebook {
    const root: Element
    const bus: EventBus
    const config: Config

    constructor (root: Element, bus: EventBus, config: Config)
      ensures this.root == root && this.bus == bus && this.config == config
    {
      this.root := root;
      this.bus := bus;
      this.config := config;
    }
  }

  /**
   * What one run of `init` creates and its `destroy` listener closes over;
   * `null` stands for a `sidebar` / `notebook` left `undefined`.
   */
  datatype Collaborators = Collaborators(guest: Guest, sidebar: Sidebar?, notebook: Notebook?)

  /** A construction of, or a `destroy()` call on, one of the collaborators. */
  datatype Call =
    | NewEventBus(bus: EventBus)
    | NewGuest(guest: Guest)
    | NewSidebar(sidebar: Sidebar)
    | NewNotebook(notebook: Notebook)
    | DestroySidebar(sidebar: Sidebar)
    | DestroyNotebook(notebook: Notebook)
    | DestroyGuest(guest: Guest)

  /**
   * `c` is wired as `init` wires it: the Guest gets the annotator config, the
   * Sidebar and Notebook exist exactly in a host frame, every collaborator
   * shares the Guest's EventBus and gets `document.body`, and the Sidebar gets
   * the Guest.
   */
  ghost predicate Wired(c: Collaborators, getConfig: Scope -> Config, body: Element) {
    var host := IsHostFrame(getConfig(AnnotatorScope));
    c.guest.root == body && c.guest.config == getConfig(AnnotatorScope) &&
    (c.sidebar != null <==> host) && (c.notebook != null <==> host) &&
    (c.sidebar != null ==>
       c.sidebar.root == body && c.sidebar.bus == c.guest.bus &&
       c.sidebar.guest == c.guest && c.sidebar.config == getConfig(SidebarScope)) &&
    (c.notebook != null ==>
       c.notebook.root == body && c.notebook.bus == c.guest.bus &&
       c.notebook.config == getConfig(NotebookScope))
  }

  /** The constructions one run of `init` performs, in order. */
  ghost function ConstructionCalls(c: Collaborators): seq<Call> {
    [NewEventBus(c.guest.bus), NewGuest(c.guest)]
    + (if c.sidebar != null then [NewSidebar(c.sidebar)] else [])
    + (if c.notebook != null then [NewNotebook(c.notebook)] else [])
  }

  /** The `destroy()` calls one run of the `destroy` listener makes, in order. */
  ghost function DestroyCalls(c: Collaborators): seq<Call> {
    (if c.sidebar != null then [DestroySidebar(c.sidebar)] else [])
    + (if c.notebook != null then [DestroyNotebook(c.notebook)] else [])
    + [DestroyGuest(c.guest)]
  }

  /** The `destroy()` calls of the listeners in `ls`, run one after the other. */
  ghost function DestroyCallsOf(ls: seq<Collaborators>): seq<Call> {
    if ls == [] then [] else DestroyCallsOf(ls[..|ls| - 1]) + DestroyCalls(ls[|ls| - 1])
  }

  ghost function Repeat(s: seq<Call>, n: nat): seq<Call> {
    if n == 0 then [] else Repeat(s, n - 1) + s
  }

  /** Everything that happens to the collaborators: `init` once, then `rounds` runs of the listener. */
  ghost function History(c: Collaborators, rounds: nat): seq<Call> {
    ConstructionCalls(c) + Repeat(DestroyCalls(c), rounds)
  }

  /** The teardown position of a `destroy()` call: sidebar, then notebook, then guest. */
  function TeardownRank(x: Call): nat {
    match x
    case DestroySidebar(_) => 0
    case DestroyNotebook(_) => 1
    case DestroyGuest(_) => 2
    case _ => 3
  }

  /** The `destroy()` call matching a construction, if the collaborator has one. */
  function DestroyFor(x: Call): Option<Call> {
    match x
    case NewGuest(g) => Some(DestroyGuest(g))
    case NewSidebar(s) => Some(DestroySidebar(s))
    case NewNotebook(n) => Some(DestroyNotebook(n))
    case _ => None
  }

  // ---- lemmas about the history ----

  /** One more run of the listener extends the history by its calls. */
  lemma HistoryStep(c: Collaborators, rounds: nat)
    ensures History(c, rounds) + DestroyCalls(c) == History(c, rounds + 1)
  {
  }

  /** The listener's calls are strictly ordered sidebar, notebook, guest. */
  lemma DestroyOrder(c: Collaborators)
    ensures forall i, j :: 0 <= i < j < |DestroyCalls(c)| ==>
              TeardownRank(DestroyCalls(c)[i]) < TeardownRank(DestroyCalls(c)[j])
  {
  }

  /**
   * The listener destroys exactly what `init` constructed (the EventBus aside),
   * each once.
   */
  lemma DestroyMatchesConstruction(c: Collaborators)
    ensures forall x :: x in ConstructionCalls(c) && DestroyFor(x).Some? ==>
              multiset(DestroyCalls(c))[DestroyFor(x).value] == 1
    ensures forall y :: y in DestroyCalls(c) ==>
              exists x :: x in ConstructionCalls(c) && DestroyFor(x) == Some(y)
  {
    var cs := ConstructionCalls(c);
    forall y | y in DestroyCalls(c)
      ensures exists x :: x in cs && DestroyFor(x) == Some(y)
    {
      if y == DestroyGuest(c.guest) {
        assert NewGuest(c.guest) in cs;
      } else if c.sidebar != null && y == DestroySidebar(c.sidebar) {
        assert NewSidebar(c.sidebar) in cs;
      } else {
        assert NewNotebook(c.notebook) in cs;
      }
    }
  }

  /** Repeated teardown calls are all `destroy()` calls. */
  lemma {:induction false} RepeatHasNoConstruction(c: Collaborators, n: nat)
    ensures forall x :: x in Repeat(DestroyCalls(c), n) ==> TeardownRank(x) < 3
  {
    if n > 0 {
      RepeatHasNoConstruction(c, n - 1);
    }
  }

  /** A call made once per round is made `n` times in `n` rounds. */
  lemma {:induction false} RepeatCountOnce(s: seq<Call>, n: nat, x: Call)
    requires multiset(s)[x] == 1
    ensures multiset(Repeat(s, n))[x] == n
  {
    if n > 0 {
      RepeatCountOnce(s, n - 1, x);
      assert multiset(Repeat(s, n)) == multiset(Repeat(s, n - 1)) + multiset(s);
    }
  }

  /** A call never made in a round is never made in `n` rounds. */
  lemma {:induction false} RepeatCountNone(s: seq<Call>, n: nat, x: Call)
    requires x !in s
    ensures x !in Repeat(s, n)
  {
    if n > 0 {
      RepeatCountNone(s, n - 1, x);
    }
  }

  /** Teardown rounds add no construction: the history constructs exactly what `init` did. */
  lemma ConstructionCount(c: Collaborators, rounds: nat, x: Call)
    requires TeardownRank(x) == 3
    ensures multiset(History(c, rounds))[x] == multiset(ConstructionCalls(c))[x]
  {
    var rest := Repeat(DestroyCalls(c), rounds);
    RepeatHasNoConstruction(c, rounds);
    assert x !in rest;
    assert multiset(History(c, rounds)) == multiset(ConstructionCalls(c)) + multiset(rest);
  }

  /** One run of `init` constructs one EventBus and one Guest, and one Sidebar and one Notebook exactly in a host frame. */
  lemma InitConstructs(c: Collaborators, getConfig: Scope -> Config, body: Element)
    requires Wired(c, getConfig, body)
    ensures forall b :: multiset(ConstructionCalls(c))[NewEventBus(b)] == if b == c.guest.bus then 1 else 0
    ensures forall g :: multiset(ConstructionCalls(c))[NewGuest(g)] == if g == c.guest then 1 else 0
    ensures forall s :: multiset(ConstructionCalls(c))[NewSidebar(s)] ==
              if IsHostFrame(getConfig(AnnotatorScope)) && s == c.sidebar then 1 else 0
    ensures forall n :: multiset(ConstructionCalls(c))[NewNotebook(n)] ==
              if IsHostFrame(getConfig(AnnotatorScope)) && n == c.notebook then 1 else 0
  {
  }

  /**
   * However many teardowns follow, the history holds exactly one EventBus and
   * one Guest, and one Sidebar and one Notebook exactly in a host frame.
   */
  lemma ConstructedOnce(c: Collaborators, rounds: nat, getConfig: Scope -> Config, body: Element)
    requires Wired(c, getConfig, body)
    ensures forall b :: multiset(History(c, rounds))[NewEventBus(b)] == if b == c.guest.bus then 1 else 0
    ensures forall g :: multiset(History(c, rounds))[NewGuest(g)] == if g == c.guest then 1 else 0
    ensures forall s :: multiset(History(c, rounds))[NewSidebar(s)] ==
              if IsHostFrame(getConfig(AnnotatorScope)) && s == c.sidebar then 1 else 0
    ensures forall n :: multiset(History(c, rounds))[NewNotebook(n)] ==
              if IsHostFrame(getConfig(AnnotatorScope)) && n == c.notebook then 1 else 0
  {
    InitConstructs(c, getConfig, body);
    forall x | TeardownRank(x) == 3
      ensures multiset(History(c, rounds))[x] == multiset(ConstructionCalls(c))[x]
    {
      ConstructionCount(c, rounds, x);
    }
  }

  /** Each call the listener makes, it makes once per run. */
  lemma DestroyCallsDistinct(c: Collaborators, x: Call)
    requires x in DestroyCalls(c)
    ensures multiset(DestroyCalls(c))[x] == 1
  {
  }

  /** How often the history applies `destroy()` to `x`, after `rounds` runs of the listener. */
  lemma DestroyCount(c: Collaborators, rounds: nat, x: Call)
    requires TeardownRank(x) < 3
    ensures multiset(History(c, rounds))[x] == if x in DestroyCalls(c) then rounds else 0
  {
    var s := DestroyCalls(c);
    assert multiset(History(c, rounds)) == multiset(ConstructionCalls(c)) + multiset(Repeat(s, rounds));
    assert multiset(ConstructionCalls(c))[x] == 0 by {
      assert x !in ConstructionCalls(c);
    }
    if x in s {
      DestroyCallsDistinct(c, x);
      RepeatCountOnce(s, rounds, x);
    } else {
      RepeatCountNone(s, rounds, x);
    }
  }

  lemma GuestDestroyedPerRound(c: Collaborators, rounds: nat)
    ensures multiset(History(c, rounds))[DestroyGuest(c.guest)] == rounds
  {
    DestroyCount(c, rounds, DestroyGuest(c.guest));
  }

  lemma SidebarDestroyedPerRound(c: Collaborators, rounds: nat)
    requires c.sidebar != null
    ensures multiset(History(c, rounds))[DestroySidebar(c.sidebar)] == rounds
  {
    DestroyCount(c, rounds, DestroySidebar(c.sidebar));
  }

  lemma NotebookDestroyedPerRound(c: Collaborators, rounds: nat)
    requires c.notebook != null
    ensures multiset(History(c, rounds))[DestroyNotebook(c.notebook)] == rounds
  {
    DestroyCount(c, rounds, DestroyNotebook(c.notebook));
  }

  /** After `rounds` runs of the listener every collaborator has had `destroy()` called `rounds` times. */
  lemma DestroyedPerRound(c: Collaborators, rounds: nat)
    ensures multiset(History(c, rounds))[DestroyGuest(c.guest)] == rounds
    ensures c.sidebar != null ==> multiset(History(c, rounds))[DestroySidebar(c.sidebar)] == rounds
    ensures c.notebook != null ==> multiset(History(c, rounds))[DestroyNotebook(c.notebook)] == rounds
  {
    GuestDestroyedPerRound(c, rounds);
    if c.sidebar != null {
      SidebarDestroyedPerRound(c, rounds);
    }
    if c.notebook != null {
      NotebookDestroyedPerRound(c, rounds);
    }
  }

  /** Nothing but the listener's own collaborators ever has `destroy()` called on it. */
  lemma NothingElseDestroyed(c: Collaborators, rounds: nat)
    ensures forall x :: TeardownRank(x) < 3 && x !in DestroyCalls(c) ==> multiset(History(c, rounds))[x] == 0
  {
    forall x | TeardownRank(x) < 3 && x !in DestroyCalls(c)
      ensures multiset(History(c, rounds))[x] == 0
    {
      DestroyCount(c, rounds, x);
    }
  }

  /**
   * One browsing context running the annotator bundle: its document, the
   * document-ready gate and what `init` built.
   */
  class Page {
    /** The document's elements, in document order. */
    var elements: seq<Element>
    var readyState: ReadyState
    /** `document.body`. */
    const body: Element
    /** The configuration accessor `getConfig`, outside this model. */
    const getConfig: Scope -> Config

    /** The bundle has run: the sidebar link is looked up and `documentReady()` has been called. */
    var booted: bool
    /** The `sidebarLinkElement` found when the bundle ran (`None` for `null`). */
    var sidebarLink: Option<Element>
    /** The promise returned by `documentReady` is resolved. */
    var resolved: bool
    var initRuns: nat
    /** The `destroy` listeners registered on the sidebar link, in registration order. */
    var destroyListeners: seq<Collaborators>

    /** What the one run of `init` created. */
    ghost var created: Option<Collaborators>
    /** How many times the `destroy` listener has run. */
    ghost var destroyRounds: nat
    /** Every construction of and `destroy()` call on a collaborator, in order. */
    ghost var log: seq<Call>

    /** Every invariant except the gate's promise to resolve once the document has loaded. */
    ghost predicate Consistent()
      reads this
    {
      // `init` runs exactly when the promise resolves, and therefore at most once
      initRuns == (if resolved then 1 else 0) &&
      (resolved ==> booted) &&
      (created.Some? <==> resolved) &&
      (!resolved ==> destroyListeners == [] && log == [] && destroyRounds == 0) &&
      (resolved ==>
         Wired(created.value, getConfig, body) &&
         destroyListeners == (if sidebarLink.Some? then [created.value] else []) &&
         (sidebarLink.None? ==> destroyRounds == 0) &&
         log == History(created.value, destroyRounds)) &&
      (destroyRounds > 0 ==> NoAssets(elements))
    }

    ghost predicate Valid()
      reads this
    {
      Consistent() && (booted && readyState != Loading ==> resolved)
    }

    /** The page as it is when the bundle starts loading. */
    constructor (elements: seq<Element>, readyState: ReadyState, body: Element, getConfig: Scope -> Config)
      ensures Valid()
      ensures this.elements == elements && this.readyState == readyState
      ensures this.body == body && this.getConfig == getConfig
      ensures !booted && !resolved && initRuns == 0 && destroyListeners == [] && log == []
    {
      this.elements := elements;
      this.readyState := readyState;
      this.body := body;
      this.getConfig := getConfig;
      booted := false;
      sidebarLink := None;
      resolved := false;
      initRuns := 0;
      destroyListeners := [];
      created := None;
      destroyRounds := 0;
      log := [];
    }

    /**
     * `init`: builds the collaborators and registers the `destroy` listener.
     * When the sidebar link is `null`, `addEventListener` throws after the
     * collaborators are built: `ok` is false and no listener is registered.
     */
    method Init() returns (ok: bool, c: Collaborators)
      modifies this`initRuns, this`destroyListeners, this`log
      ensures initRuns == old(initRuns) + 1
      ensures fresh(c.guest) && fresh(c.guest.bus)
      ensures c.sidebar != null ==> fresh(c.sidebar)
      ensures c.notebook != null ==> fresh(c.notebook)
      ensures Wired(c, getConfig, body)
      ensures log == old(log) + ConstructionCalls(c)
      ensures ok <==> sidebarLink.Some?
      ensures destroyListeners == old(destroyListeners) + (if ok then [c] else [])
    {
      initRuns := initRuns + 1;
      var annotatorConfig := getConfig(AnnotatorScope);
      var isHostFrame := IsHostFrame(annotatorConfig);

      var eventBus := new EventBus();
      log := log + [NewEventBus(eventBus)];
      var guest := new Guest(body, eventBus, annotatorConfig);
      log := log + [NewGuest(guest)];

      var sidebar: Sidebar? := null;
      var notebook: Notebook? := null;
      if isHostFrame {
        sidebar := new Sidebar(body, eventBus, guest, getConfig(SidebarScope));
        log := log + [NewSidebar(sidebar)];
        notebook := new Notebook(body, eventBus, getConfig(NotebookScope));
        log := log + [NewNotebook(notebook)];
      }
      c := Collaborators(guest, sidebar, notebook);

      ok := sidebarLink.Some?;
      if ok {
        destroyListeners := destroyListeners + [c];
      }
    }

    /** `resolve()` of the `documentReady` promise, whose `.then` is `init`; later calls do nothing. */
    method Resolve()
      requires Consistent() && booted
      modifies this`resolved, this`initRuns, this`destroyListeners, this`log, this`created
      ensures Valid() && resolved
      ensures old(resolved) ==>
                initRuns == old(initRuns) && log == old(log) && created == old(created) &&
                destroyListeners == old(destroyListeners)
      ensures !old(resolved) ==>
                fresh(created.value.guest) && fresh(created.value.guest.bus) &&
                (created.value.sidebar != null ==> fresh(created.value.sidebar)) &&
                (created.value.notebook != null ==> fresh(created.value.notebook))
    {
      if !resolved {
        resolved := true;
        var ok, c := Init();
        created := Some(c);
      }
    }

    /**
     * Loading the bundle: look up the sidebar link, then `documentReady()`,
     * which resolves at once unless the document is still loading and arms a
     * `readystatechange` listener either way.
     */
    method Boot()
      requires Valid() && !booted
      modifies this`booted, this`sidebarLink, this`resolved, this`initRuns, this`destroyListeners,
               this`log, this`created
      ensures Valid() && booted
      ensures sidebarLink == QuerySidebarLink(elements)
      ensures resolved <==> readyState != Loading
      ensures initRuns == if readyState != Loading then 1 else 0
      ensures resolved ==>
                fresh(created.value.guest) && fresh(created.value.guest.bus) &&
                (created.value.sidebar != null ==> fresh(created.value.sidebar)) &&
                (created.value.notebook != null ==> fresh(created.value.notebook))
      ensures readyState == Loading ==> log == [] && destroyListeners == []
    {
      sidebarLink := QuerySidebarLink(elements);
      booted := true;
      if readyState != Loading {
        Resolve();
      }
    }

    /**
     * The document fires `readystatechange` on moving to `state`; once the
     * bundle has run, its listener calls `resolve()`.
     */
    method ReadyStateChange(state: ReadyState)
      requires Valid()
      modifies this`readyState, this`resolved, this`initRuns, this`destroyListeners, this`log, this`created
      ensures Valid() && readyState == state
      ensures resolved <==> old(resolved) || booted
      ensures initRuns == if old(resolved) || booted then 1 else 0
      ensures old(resolved) || !booted ==>
                log == old(log) && created == old(created) && destroyListeners == old(destroyListeners)
      ensures !old(resolved) && booted ==>
                fresh(created.value.guest) && fresh(created.value.guest.bus) &&
                (created.value.sidebar != null ==> fresh(created.value.sidebar)) &&
                (created.value.notebook != null ==> fresh(created.value.notebook))
    {
      readyState := state;
      if booted {
        Resolve();
      }
    }

    /** The removal of `document.querySelectorAll('[data-hypothesis-asset]')`, one node at a time. */
    method RemoveClientAssets()
      modifies this`elements
      ensures elements == NonAssets(old(elements))
    {
      var clientAssets := Assets(elements);
      ghost var removed: set<Element> := {};
      ExceptNothing(elements);
      var i := 0;
      while i < |clientAssets|
        invariant 0 <= i <= |clientAssets|
        invariant forall x :: x in removed <==> x in clientAssets[..i]
        invariant elements == Except(old(elements), removed)
      {
        ExceptStep(old(elements), removed, clientAssets[i]);
        assert clientAssets[..i + 1] == clientAssets[..i] + [clientAssets[i]];
        elements := Except(elements, {clientAssets[i]});
        removed := removed + {clientAssets[i]};
        i := i + 1;
      }
      assert clientAssets[..i] == clientAssets;
      ExceptAssets(old(elements), removed);
    }

    /** The body of the `destroy` listener for the collaborators `c`. */
    method RunDestroyListener(c: Collaborators)
      modifies this`elements, this`log
      ensures log == old(log) + DestroyCalls(c)
      ensures elements == NonAssets(old(elements))
    {
      if c.sidebar != null {
        log := log + [DestroySidebar(c.sidebar)];
      }
      if c.notebook != null {
        log := log + [DestroyNotebook(c.notebook)];
      }
      log := log + [DestroyGuest(c.guest)];
      RemoveClientAssets();
    }

    /** Every registered `destroy` listener runs, in registration order. */
    method RunDestroyListeners()
      modifies this`elements, this`log
      ensures log == old(log) + DestroyCallsOf(destroyListeners)
      ensures elements == if destroyListeners == [] then old(elements) else NonAssets(old(elements))
    {
      var i := 0;
      while i < |destroyListeners|
        invariant 0 <= i <= |destroyListeners|
        invariant log == old(log) + DestroyCallsOf(destroyListeners[..i])
        invariant elements == if i == 0 then old(elements) else NonAssets(old(elements))
      {
        ghost var before := elements;
        ghost var done := DestroyCallsOf(destroyListeners[..i]);
        assert destroyListeners[..i + 1][..i] == destroyListeners[..i];
        assert DestroyCallsOf(destroyListeners[..i + 1]) == done + DestroyCalls(destroyListeners[i]);
        RunDestroyListener(destroyListeners[i]);
        assert elements == NonAssets(before);
        assert (old(log) + done) + DestroyCalls(destroyListeners[i])
            == old(log) + (done + DestroyCalls(destroyListeners[i]));
        if i > 0 {
          NonAssetsIdempotent(old(elements));
        }
        i := i + 1;
      }
      assert destroyListeners[..i] == destroyListeners;
    }

    /** The `destroy` event is dispatched on the sidebar link. */
    method DispatchDestroy()
      requires Valid()
      modifies this`elements, this`log, this`destroyRounds
      ensures Valid()
      ensures destroyListeners == [] ==> elements == old(elements) && log == old(log)
      ensures destroyListeners != [] ==>
                elements == NonAssets(old(elements)) && NoAssets(elements) &&
                log == old(log) + DestroyCalls(created.value) &&
                destroyRounds == old(destroyRounds) + 1
      ensures old(destroyRounds) > 0 ==> elements == old(elements)
    {
      RunDestroyListeners();
      if destroyListeners != [] {
        ghost var c := created.value;
        assert destroyListeners == [c];
        assert DestroyCallsOf([c]) == DestroyCalls(c) by {
          assert [c][..0] == [];
        }
        assert log == History(c, destroyRounds) + DestroyCalls(c);
        HistoryStep(c, destroyRounds);
        destroyRounds := destroyRounds + 1;
        assert log == History(c, destroyRounds);
      }
      if old(destroyRounds) > 0 {
        NonAssetsOfAssetFree(old(elements));
      }
    }
  }

  // ---- the scenarios the bootstrap is expected to go through ----

  /** A host frame: Guest, Sidebar and Notebook all exist, on one bus. */
  method HostFrameScenario() {
    var getConfig := (s: Scope) => Config(if s == AnnotatorScope then Null else Undefined);
    var body := Element(0, false, false);
    var link := Element(1, true, true);
    var page := new Page([body, link], Complete, body, getConfig);
    page.Boot();
    assert page.initRuns == 1;
    var c := page.created.value;
    assert c.sidebar != null && c.notebook != null;
    assert c.sidebar.bus == c.guest.bus && c.notebook.bus == c.guest.bus && c.sidebar.guest == c.guest;
  }

  /** A guest-only frame: a Guest and no Sidebar or Notebook. */
  method GuestFrameScenario() {
    var getConfig := (s: Scope) => Config(Str("frame-42"));
    var body := Element(0, false, false);
    var link := Element(1, true, true);
    var page := new Page([body, link], Interactive, body, getConfig);
    page.Boot();
    var c := page.created.value;
    assert c.sidebar == null && c.notebook == null;
  }

  /** A document still loading: `init` waits for `readystatechange` and runs once for two of them. */
  method LoadingDocumentScenario() {
    var getConfig := (s: Scope) => Config(Null);
    var body := Element(0, false, false);
    var page := new Page([body, Element(1, true, true)], Loading, body, getConfig);
    page.Boot();
    assert page.initRuns == 0;
    page.ReadyStateChange(Interactive);
    assert page.initRuns == 1;
    page.ReadyStateChange(Complete);
    assert page.initRuns == 1;
  }

  /** Three injected assets are removed by the first `destroy` and stay removed after a second; the unmarked elements stay, in order. */
  method TeardownScenario() {
    var getConfig := (s: Scope) => Config(Null);
    var link := Element(0, true, true);
    var script := Element(1, true, false);
    var style := Element(2, true, false);
    var body := Element(3, false, false);
    var content := Element(4, false, false);
    var injected := [link, script, style];
    var kept := [body, content];
    NonAssetsOfAllAssets(injected);
    NonAssetsOfAssetFree(kept);
    NonAssetsAppend(injected, kept);
    var page := new Page(injected + kept, Complete, body, getConfig);
    page.Boot();
    assert page.sidebarLink == Some(link);
    page.DispatchDestroy();
    assert page.elements == [body, content];
    page.DispatchDestroy();
    assert page.elements == [body, content];
    assert page.destroyRounds == 2;
  }
}
