/** Fetching a video's information and the generation token that keeps
    late results of an earlier fetch off the screen (`fetch_info`,
    `safe_idle`, `get_video_info` and `clear_ui`).

    Work done on the main loop is modelled as a list of pending callbacks,
    each carrying the token it captured; the main loop runs them in order
    and a callback only has its effect when its token is still the current
    one. The fields holding the catalog are assigned by the worker directly,
    without looking at the token. */
module Fetch {
  import opened Wrappers
  import opened Text
  import Catalog
  import Monitor

  /** A dialog the window has shown: its title and text. */
  datatype Popup = Popup(title: string, text: string)

  /** The widgets the fetch touches. The preset dropdown only ever lists
      either the single placeholder "Selected format" or the labels of the
      fixed preset table, so `presetsShown` says which. */
  datatype Ui = Ui(
    status: string,
    titleText: string,
    thumbLoading: bool,
    thumbnail: Option<string>,
    formatChoices: seq<string>,
    presetsShown: bool,
    downloadEnabled: bool,
    presetsEnabled: bool,
    popups: seq<Popup>)

  /** The calls `get_video_info` hands to `safe_idle`. */
  datatype Effect =
    | SetStatus(text: string)
    | SetTitle(text: string)
    | SetThumbLoading(on: bool)
    | SetThumbnail(path: string)
    | ShowError(title: string, text: string)
    | ReplaceFormats(choices: seq<string>)
    | ReplacePresets
    | SetDownloadEnabled(on: bool)
    | SetPresetsEnabled(on: bool)

  /** A callback waiting on the main loop, with the token it captured. */
  datatype Callback = Callback(token: nat, effect: Effect)

  /** What the `yt-dlp -J` run gave: a failure with its output, or the
      decoded title, thumbnail URL and format records. */
  datatype Outcome =
    | Failed(stderr: string, stdout: string)
    | Loaded(title: string, thumbnailUrl: string, formats: seq<Catalog.RawFormat>)

  /** Where the thumbnail is saved. */
  const ThumbPath: string := "/tmp/glassdrop_thumb.jpg"

  function Apply(ui: Ui, e: Effect): Ui {
    match e
    case SetStatus(t) => ui.(status := t)
    case SetTitle(t) => ui.(titleText := t)
    case SetThumbLoading(b) => ui.(thumbLoading := b)
    case SetThumbnail(p) => ui.(thumbnail := Some(p))
    case ShowError(t, x) => ui.(popups := ui.popups + [Popup(t, x)])
    case ReplaceFormats(cs) => ui.(formatChoices := cs)
    case ReplacePresets => ui.(presetsShown := true)
    case SetDownloadEnabled(b) => ui.(downloadEnabled := b)
    case SetPresetsEnabled(b) => ui.(presetsEnabled := b)
  }

  function ApplyAll(ui: Ui, es: seq<Effect>): Ui
    decreases |es|
  {
    if es == [] then ui else ApplyAll(Apply(ui, es[0]), es[1..])
  }

  /** The effects of the callbacks that will still run under token `tok`. */
  function Live(cbs: seq<Callback>, tok: nat): (r: seq<Effect>)
    ensures |r| <= |cbs|
  {
    if cbs == [] then []
    else (if cbs[0].token == tok then [cbs[0].effect] else []) + Live(cbs[1..], tok)
  }

  /** The same effects, all scheduled with token `tok`. */
  function Tagged(tok: nat, es: seq<Effect>): (r: seq<Callback>)
    ensures |r| == |es|
    ensures forall i :: 0 <= i < |es| ==> r[i] == Callback(tok, es[i])
  {
    if es == [] then [] else [Callback(tok, es[0])] + Tagged(tok, es[1..])
  }

  /** The labels of the dropdown rows. */
  function Captions(es: seq<Catalog.Entry>): (r: seq<string>)
    ensures |r| == |es|
  {
    if es == [] then [] else [es[0].caption] + Captions(es[1..])
  }

  /** The `if format_labels:` branch: the new format dropdown and both
      controls enabled, or both controls disabled. */
  function FormatEffects(c: Catalog.Catalog): seq<Effect> {
    if Captions(c.formats) != [] then
      [ReplaceFormats(Captions(c.formats)), SetDownloadEnabled(true), SetPresetsEnabled(true)]
    else [SetDownloadEnabled(false), SetPresetsEnabled(false)]
  }

  /** The thumbnail, when the information names one, then the spinner off. */
  function ThumbEffects(thumbnailUrl: string): seq<Effect> {
    if thumbnailUrl != "" then [SetThumbnail(ThumbPath), SetThumbLoading(false)] else [SetThumbLoading(false)]
  }

  /** What a successful fetch schedules after "Fetching info...". */
  function LoadedEffects(title: string, thumbnailUrl: string, c: Catalog.Catalog): seq<Effect> {
    [SetTitle(title)] + FormatEffects(c) + [ReplacePresets]
      + ThumbEffects(thumbnailUrl) + [SetStatus("Info Loaded")]
  }

  /** What a failed fetch schedules after "Fetching info...". */
  function FailureEffects(stderr: string, stdout: string): seq<Effect> {
    [SetStatus("Failed to fetch info"), SetThumbLoading(false),
     ShowError("Fetch Failed", Monitor.FetchErrorText(stderr, stdout))]
  }

  function OutcomeEffects(o: Outcome): seq<Effect> {
    match o
    case Failed(err, out) => FailureEffects(err, out)
    case Loaded(t, th, fs) => LoadedEffects(t, th, Catalog.BuildCatalog(fs))
  }

  /** Everything `get_video_info` schedules for an outcome. */
  function FetchEffects(o: Outcome): seq<Effect> {
    [SetStatus("Fetching info...")] + OutcomeEffects(o)
  }

  /** The window after a successful fetch's callbacks have all run. */
  function LoadedUi(ui: Ui, title: string, thumbnailUrl: string, c: Catalog.Catalog): Ui {
    ui.(titleText := title,
        formatChoices := if Captions(c.formats) != [] then Captions(c.formats) else ui.formatChoices,
        downloadEnabled := Captions(c.formats) != [],
        presetsEnabled := Captions(c.formats) != [],
        presetsShown := true,
        thumbnail := if thumbnailUrl != "" then Some(ThumbPath) else ui.thumbnail,
        thumbLoading := false,
        status := "Info Loaded")
  }

  /** The window's fetch-related state. `preset_options` is only ever the
      fixed preset table or the empty list, so `presetsLoaded` says which. */
  datatype WState = WState(
    fetchToken: nat,
    pending: seq<Callback>,
    ui: Ui,
    currentUrl: string,
    currentTitle: string,
    formatsAll: seq<Catalog.RawFormat>,
    catalog: Catalog.Catalog,
    presetsLoaded: bool)

  /** A callback can only hold a token that has been handed out. */
  ghost predicate Issued(pending: seq<Callback>, fetchToken: nat) {
    forall i :: 0 <= i < |pending| ==> pending[i].token <= fetchToken
  }

  ghost predicate Valid(s: WState) {
    Issued(s.pending, s.fetchToken)
  }

  function EmptyCatalog(): Catalog.Catalog {
    Catalog.Catalog([], [], [], None)
  }

  /** `fetch_info`: nothing for a blank entry; otherwise a new token, the
      URL remembered and the thumbnail spinner on. */
  function FetchInfoSpec(s: WState, entryText: string): WState {
    if Strip(entryText) == "" then s
    else s.(fetchToken := s.fetchToken + 1, currentUrl := Strip(entryText),
            ui := s.ui.(thumbLoading := true))
  }

  /** `get_video_info` as written: the callbacks are tagged with `token`,
      but a successful fetch assigns the format list, the catalog, the
      title and the presets whatever the token. */
  function GetVideoInfoSpec(s: WState, token: nat, o: Outcome): WState {
    var s1 := s.(pending := s.pending + Tagged(token, FetchEffects(o)));
    match o
    case Failed(_, _) => s1
    case Loaded(t, _, fs) =>
      s1.(formatsAll := fs, catalog := Catalog.BuildCatalog(fs), currentTitle := t,
          presetsLoaded := true)
  }

  /** `get_video_info` as its token evidently intends: a fetch whose token
      is no longer current leaves the window's data alone as well. */
  function GetVideoInfoGuardedSpec(s: WState, token: nat, o: Outcome): WState {
    if token == s.fetchToken then GetVideoInfoSpec(s, token, o)
    else s.(pending := s.pending + Tagged(token, FetchEffects(o)))
  }

  /** `clear_ui`: a new token, and every field the fetch filled reset. The
      format list `formats_all` is left as it was. */
  function ClearUiSpec(s: WState): WState {
    s.(fetchToken := s.fetchToken + 1,
       currentUrl := "", currentTitle := "",
       catalog := EmptyCatalog(), presetsLoaded := false,
       ui := s.ui.(titleText := "", thumbnail := None, thumbLoading := false, status := "Idle",
                   downloadEnabled := false, presetsEnabled := false,
                   formatChoices := ["No formats loaded"], presetsShown := false))
  }

  /** The main loop running every pending callback. */
  function DrainSpec(s: WState): WState {
    s.(ui := ApplyAll(s.ui, Live(s.pending, s.fetchToken)), pending := [])
  }

  // ---------------------------------------------------------------------------
  // Properties of the callback list

  lemma {:induction false} LiveAppend(a: seq<Callback>, b: seq<Callback>, tok: nat)
    ensures Live(a + b, tok) == Live(a, tok) + Live(b, tok)
    decreases |a|
  {
    if a != [] {
      assert (a + b)[1..] == a[1..] + b;
      LiveAppend(a[1..], b, tok);
    } else {
      assert a + b == b;
    }
  }

  /** Callbacks scheduled under the current token all run, in order;
      callbacks scheduled under any other token do nothing. */
  lemma {:induction false} LiveTagged(t: nat, es: seq<Effect>, tok: nat)
    ensures t == tok ==> Live(Tagged(t, es), tok) == es
    ensures t != tok ==> Live(Tagged(t, es), tok) == []
    decreases |es|
  {
    if es != [] {
      assert Tagged(t, es)[1..] == Tagged(t, es[1..]);
      LiveTagged(t, es[1..], tok);
    }
  }

  /** Callbacks whose tokens are all older than `tok` do nothing. */
  lemma {:induction false} LiveStale(cbs: seq<Callback>, tok: nat)
    requires forall i :: 0 <= i < |cbs| ==> cbs[i].token < tok
    ensures Live(cbs, tok) == []
    decreases |cbs|
  {
    if cbs != [] {
      LiveStale(cbs[1..], tok);
    }
  }

  lemma {:induction false} ApplyAllAppend(ui: Ui, a: seq<Effect>, b: seq<Effect>)
    ensures ApplyAll(ui, a + b) == ApplyAll(ApplyAll(ui, a), b)
    decreases |a|
  {
    if a != [] {
      assert (a + b)[1..] == a[1..] + b;
      ApplyAllAppend(Apply(ui, a[0]), a[1..], b);
    } else {
      assert a + b == b;
    }
  }

  lemma ApplyCons(ui: Ui, e: Effect, es: seq<Effect>)
    ensures ApplyAll(ui, [e] + es) == ApplyAll(Apply(ui, e), es)
  {
    assert ([e] + es)[1..] == es;
  }

  lemma {:induction false} TaggedAppend(t: nat, a: seq<Effect>, b: seq<Effect>)
    ensures Tagged(t, a + b) == Tagged(t, a) + Tagged(t, b)
  {
    assert |Tagged(t, a + b)| == |Tagged(t, a) + Tagged(t, b)|;
    forall i | 0 <= i < |a + b|
      ensures Tagged(t, a + b)[i] == (Tagged(t, a) + Tagged(t, b))[i]
    {
      if i >= |a| {
        assert (a + b)[i] == b[i - |a|];
      }
    }
  }

  lemma TaggedCons(t: nat, e: Effect, es: seq<Effect>)
    ensures Tagged(t, [e] + es) == [Callback(t, e)] + Tagged(t, es)
  {
    assert ([e] + es)[1..] == es;
  }

  lemma FormatEffectsShow(ui: Ui, c: Catalog.Catalog)
    ensures ApplyAll(ui, FormatEffects(c)) ==
      ui.(formatChoices := if Captions(c.formats) != [] then Captions(c.formats) else ui.formatChoices,
          downloadEnabled := Captions(c.formats) != [],
          presetsEnabled := Captions(c.formats) != [])
  {
    var es := FormatEffects(c);
    ApplyCons(ui, es[0], es[1..]);
    ApplyCons(Apply(ui, es[0]), es[1], es[2..]);
    if |es| == 3 {
      ApplyCons(Apply(Apply(ui, es[0]), es[1]), es[2], []);
    }
  }

  lemma ThumbEffectsShow(ui: Ui, thumbnailUrl: string)
    ensures ApplyAll(ui, ThumbEffects(thumbnailUrl)) ==
      ui.(thumbnail := if thumbnailUrl != "" then Some(ThumbPath) else ui.thumbnail, thumbLoading := false)
  {
    var es := ThumbEffects(thumbnailUrl);
    ApplyCons(ui, es[0], es[1..]);
    if |es| == 2 {
      ApplyCons(Apply(ui, es[0]), es[1], []);
    }
  }

  /** Running the callbacks of a successful fetch, in order, on `ui`,
      gives the window `LoadedUi` describes. */
  lemma LoadedEffectsShow(ui: Ui, t: string, th: string, c: Catalog.Catalog)
    ensures ApplyAll(ui, LoadedEffects(t, th, c)) == LoadedUi(ui, t, th, c)
  {
    var a := [SetTitle(t)];
    var b := FormatEffects(c);
    var d := [ReplacePresets];
    var e := ThumbEffects(th);
    var f := [SetStatus("Info Loaded")];
    ApplyAllAppend(ui, a, b);
    ApplyAllAppend(ui, a + b, d);
    ApplyAllAppend(ui, a + b + d, e);
    ApplyAllAppend(ui, a + b + d + e, f);
    ApplyCons(ui, a[0], []);
    var u1 := Apply(ui, a[0]);
    FormatEffectsShow(u1, c);
    var u2 := ApplyAll(u1, b);
    ApplyCons(u2, d[0], []);
    var u3 := Apply(u2, d[0]);
    ThumbEffectsShow(u3, th);
    ApplyCons(ApplyAll(u3, e), f[0], []);
  }
  /** Running the callbacks of a failed fetch sets the failure status,
      stops the spinner and adds one "Fetch Failed" dialog. */
  lemma FailureEffectsShow(ui: Ui, err: string, out: string)
    ensures ApplyAll(ui, FailureEffects(err, out))
      == ui.(status := "Failed to fetch info", thumbLoading := false,
             popups := ui.popups + [Popup("Fetch Failed", Monitor.FetchErrorText(err, out))])
  {
    var x := Monitor.FetchErrorText(err, out);
    var u1 := ui.(status := "Failed to fetch info");
    var u2 := u1.(thumbLoading := false);
    ApplyCons(ui, SetStatus("Failed to fetch info"), [SetThumbLoading(false), ShowError("Fetch Failed", x)]);
    ApplyCons(u1, SetThumbLoading(false), [ShowError("Fetch Failed", x)]);
    ApplyCons(u2, ShowError("Fetch Failed", x), []);
  }


  // ---------------------------------------------------------------------------
  // The token

  /** `fetch_info` hands out a strictly larger token exactly when the
      entry is not blank, and every callback already pending becomes
      stale: draining the main loop then changes nothing on screen. */
  lemma FetchInfoStalesPending(s: WState, entryText: string)
    requires Valid(s)
    ensures Valid(FetchInfoSpec(s, entryText))
    ensures Strip(entryText) == "" ==> FetchInfoSpec(s, entryText) == s
    ensures Strip(entryText) != "" ==>
      && FetchInfoSpec(s, entryText).fetchToken > s.fetchToken
      && FetchInfoSpec(s, entryText).currentUrl == Strip(entryText)
      && Live(FetchInfoSpec(s, entryText).pending, FetchInfoSpec(s, entryText).fetchToken) == []
      && DrainSpec(FetchInfoSpec(s, entryText)).ui == FetchInfoSpec(s, entryText).ui
  {
    if Strip(entryText) != "" {
      LiveStale(s.pending, s.fetchToken + 1);
    }
  }

  /** `clear_ui` hands out a strictly larger token and empties the
      catalog; every callback already pending becomes stale, so draining
      the main loop afterwards leaves the cleared window as it is. */
  lemma ClearUiStalesPending(s: WState)
    requires Valid(s)
    ensures Valid(ClearUiSpec(s))
    ensures ClearUiSpec(s).fetchToken > s.fetchToken
    ensures ClearUiSpec(s).catalog == EmptyCatalog() && ClearUiSpec(s).currentUrl == ""
    ensures Live(ClearUiSpec(s).pending, ClearUiSpec(s).fetchToken) == []
    ensures DrainSpec(ClearUiSpec(s)).ui == ClearUiSpec(s).ui
  {
    LiveStale(s.pending, s.fetchToken + 1);
  }

  /** Callbacks tagged with a token already issued keep the list issued. */
  lemma IssuedTagged(pending: seq<Callback>, fetchToken: nat, token: nat, es: seq<Effect>)
    requires Issued(pending, fetchToken) && token <= fetchToken
    ensures Issued(pending + Tagged(token, es), fetchToken)
  {
    var r := pending + Tagged(token, es);
    forall i | 0 <= i < |r|
      ensures r[i].token <= fetchToken
    {
      if i >= |pending| {
        assert r[i] == Tagged(token, es)[i - |pending|];
      }
    }
  }

  /** The worker never moves the token; draining neither. */
  lemma TokenOnlyMovesForward(s: WState, token: nat, o: Outcome)
    requires Valid(s) && token <= s.fetchToken
    ensures Valid(GetVideoInfoSpec(s, token, o)) && Valid(GetVideoInfoGuardedSpec(s, token, o))
    ensures GetVideoInfoSpec(s, token, o).fetchToken == s.fetchToken
    ensures GetVideoInfoGuardedSpec(s, token, o).fetchToken == s.fetchToken
    ensures Valid(DrainSpec(s)) && DrainSpec(s).fetchToken == s.fetchToken && DrainSpec(s).pending == []
  {
    IssuedTagged(s.pending, s.fetchToken, token, FetchEffects(o));
  }

  /** A fetch whose token is still current shows its result once the main
      loop has run, whatever stale callbacks of earlier fetches are still
      queued: the title, "Info Loaded", the spinner off, the preset
      names, and the catalog's labels with the controls enabled (or the
      controls disabled when the catalog is empty). */
  lemma CurrentFetchShows(s: WState, t: string, th: string, fs: seq<Catalog.RawFormat>)
    requires Live(s.pending, s.fetchToken) == []
    ensures DrainSpec(GetVideoInfoSpec(s, s.fetchToken, Loaded(t, th, fs))).ui
      == LoadedUi(s.ui.(status := "Fetching info..."), t, th, Catalog.BuildCatalog(fs))
    ensures DrainSpec(GetVideoInfoSpec(s, s.fetchToken, Loaded(t, th, fs))).catalog == Catalog.BuildCatalog(fs)
  {
    var es := FetchEffects(Loaded(t, th, fs));
    LiveAppend(s.pending, Tagged(s.fetchToken, es), s.fetchToken);
    assert Live(s.pending + Tagged(s.fetchToken, es), s.fetchToken) == Live(Tagged(s.fetchToken, es), s.fetchToken);
    LiveTagged(s.fetchToken, es, s.fetchToken);
    ApplyCons(s.ui, SetStatus("Fetching info..."), LoadedEffects(t, th, Catalog.BuildCatalog(fs)));
    LoadedEffectsShow(s.ui.(status := "Fetching info..."), t, th, Catalog.BuildCatalog(fs));
  }

  /** A failed fetch whose token is still current reports the failure, stale
      callbacks still queued notwithstanding: the
      status says so, the spinner stops, and one "Fetch Failed" dialog
      carries the error text. */
  lemma CurrentFailureShows(s: WState, err: string, out: string)
    requires Live(s.pending, s.fetchToken) == []
    ensures DrainSpec(GetVideoInfoSpec(s, s.fetchToken, Failed(err, out))).ui
      == s.ui.(status := "Failed to fetch info", thumbLoading := false,
               popups := s.ui.popups + [Popup("Fetch Failed", Monitor.FetchErrorText(err, out))])
    ensures DrainSpec(GetVideoInfoSpec(s, s.fetchToken, Failed(err, out))).catalog == s.catalog
  {
    var es := FetchEffects(Failed(err, out));
    LiveAppend(s.pending, Tagged(s.fetchToken, es), s.fetchToken);
    assert Live(s.pending + Tagged(s.fetchToken, es), s.fetchToken) == Live(Tagged(s.fetchToken, es), s.fetchToken);
    LiveTagged(s.fetchToken, es, s.fetchToken);
    ApplyCons(s.ui, SetStatus("Fetching info..."), FailureEffects(err, out));
    FailureEffectsShow(s.ui.(status := "Fetching info..."), err, out);
  }

  /** A fetch whose token is no longer current changes nothing on screen:
      all its callbacks are skipped. */
  lemma StaleFetchInvisible(s: WState, token: nat, o: Outcome)
    requires Valid(s) && token < s.fetchToken
    ensures DrainSpec(GetVideoInfoSpec(s, token, o)).ui == DrainSpec(s).ui
    ensures DrainSpec(GetVideoInfoGuardedSpec(s, token, o)).ui == DrainSpec(s).ui
  {
    LiveAppend(s.pending, Tagged(token, FetchEffects(o)), s.fetchToken);
    LiveTagged(token, FetchEffects(o), s.fetchToken);
    assert Live(s.pending, s.fetchToken) + [] == Live(s.pending, s.fetchToken);
  }

  /** As written, a successful fetch whose token is no longer current
      still replaces the catalog, the format list, the title and the
      presets, while the URL stays the one of the newer fetch (or the empty
      one `clear_ui` left). */
  lemma StaleFetchOverwritesCatalog(s: WState, token: nat, t: string, th: string, fs: seq<Catalog.RawFormat>)
    requires token < s.fetchToken
    ensures GetVideoInfoSpec(s, token, Loaded(t, th, fs)).catalog == Catalog.BuildCatalog(fs)
    ensures GetVideoInfoSpec(s, token, Loaded(t, th, fs)).currentTitle == t
    ensures GetVideoInfoSpec(s, token, Loaded(t, th, fs)).currentUrl == s.currentUrl
    ensures s.catalog != Catalog.BuildCatalog(fs) ==> GetVideoInfoSpec(s, token, Loaded(t, th, fs)).catalog != s.catalog
  {
  }

  /** With the token also guarding the data, a fetch that is no longer
      current leaves every field but the (inert) callback list alone, and a
      current one behaves as written. */
  lemma GuardedFetchKeepsData(s: WState, token: nat, o: Outcome)
    ensures token != s.fetchToken ==>
      GetVideoInfoGuardedSpec(s, token, o).(pending := s.pending) == s
    ensures token == s.fetchToken ==> GetVideoInfoGuardedSpec(s, token, o) == GetVideoInfoSpec(s, token, o)
  {
  }

  // ---------------------------------------------------------------------------
  // The window

  class Window {
    var fetchToken: nat
    var pending: seq<Callback>
    var ui: Ui
    var currentUrl: string
    var currentTitle: string
    var formatsAll: seq<Catalog.RawFormat>
    var catalog: Catalog.Catalog
    var presetsLoaded: bool

    function State(): WState
      reads this
    {
      WState(fetchToken, pending, ui, currentUrl, currentTitle, formatsAll, catalog, presetsLoaded)
    }

    ghost predicate Ok()
      reads this`pending, this`fetchToken
    {
      Issued(pending, fetchToken)
    }

    constructor (initial: Ui)
      ensures State() == WState(0, [], initial, "", "", [], EmptyCatalog(), false) && Ok()
    {
      fetchToken, pending, ui := 0, [], initial;
      currentUrl, currentTitle, formatsAll := "", "", [];
      catalog, presetsLoaded := EmptyCatalog(), false;
    }

    /** `fetch_info`; the token returned is the one the worker captures. */
    method FetchInfo(entryText: string) returns (token: Option<nat>)
      requires Ok()
      modifies this
      ensures State() == FetchInfoSpec(old(State()), entryText) && Ok()
      ensures token.Some? <==> Strip(entryText) != ""
      ensures token.Some? ==> token.value == fetchToken > old(fetchToken)
    {
      var url := Strip(entryText);
      if url == "" {
        return None;
      }
      FetchInfoStalesPending(State(), entryText);
      fetchToken := fetchToken + 1;
      token := Some(fetchToken);
      currentUrl := url;
      ui := ui.(thumbLoading := true);
    }

    /** `safe_idle`: schedule `e` under `token`. */
    method SafeIdle(token: nat, e: Effect)
      requires token <= fetchToken && Ok()
      modifies this
      ensures State() == old(State()).(pending := old(pending) + [Callback(token, e)]) && Ok()
    {
      pending := pending + [Callback(token, e)];
    }

    /** Schedule a list of effects one by one. */
    method SafeIdleAll(token: nat, es: seq<Effect>)
      requires token <= fetchToken && Ok()
      modifies this
      ensures State() == old(State()).(pending := old(pending) + Tagged(token, es)) && Ok()
    {
      for i := 0 to |es|
        invariant State() == old(State()).(pending := old(pending) + Tagged(token, es[..i]))
        invariant Ok()
      {
        assert Tagged(token, es[..i + 1]) == Tagged(token, es[..i]) + [Callback(token, es[i])];
        SafeIdle(token, es[i]);
      }
      assert es[..|es|] == es;
    }

    /** The fields the worker fills from a successful fetch, assigned
        whatever the token. */
    method StoreFetched(t: string, fs: seq<Catalog.RawFormat>, c: Catalog.Catalog)
      modifies this`formatsAll, this`catalog, this`currentTitle, this`presetsLoaded
      ensures State() == old(State()).(formatsAll := fs, catalog := c,
                                       currentTitle := t, presetsLoaded := true)
    {
      formatsAll := fs;
      catalog := c;
      currentTitle := t;
      presetsLoaded := true;
    }

    /** The worker of `get_video_info` for the fetch that captured `token`,
      once the `yt-dlp -J` run has given `o`. */
    method GetVideoInfo(token: nat, o: Outcome)
      requires token <= fetchToken && Ok()
      modifies this
      ensures State() == GetVideoInfoSpec(old(State()), token, o) && Ok()
    {
      SafeIdleAll(token, FetchEffects(o));
      match o {
        case Failed(_, _) =>
        case Loaded(t, _, fs) => StoreFetched(t, fs, Catalog.BuildCatalog(fs));
      }
    }

    /** `get_video_info` with the token guarding the data as well: the
        fields are only filled while `token` is still current. */
    method GetVideoInfoGuarded(token: nat, o: Outcome)
      requires token <= fetchToken && Ok()
      modifies this
      ensures State() == GetVideoInfoGuardedSpec(old(State()), token, o) && Ok()
    {
      SafeIdleAll(token, FetchEffects(o));
      if token == fetchToken {
        match o {
          case Failed(_, _) =>
          case Loaded(t, _, fs) => StoreFetched(t, fs, Catalog.BuildCatalog(fs));
        }
      }
    }

    /** `clear_ui`. Stopping a running download is not part of this
        state; the download queue sees it as a failed download. */
    method ClearUi()
      requires Ok()
      modifies this
      ensures State() == ClearUiSpec(old(State())) && Ok()
    {
      ClearUiStalesPending(State());
      fetchToken := fetchToken + 1;
      ui := ui.(titleText := "", thumbnail := None, thumbLoading := false, status := "Idle",
                downloadEnabled := false, presetsEnabled := false,
                formatChoices := ["No formats loaded"], presetsShown := false);
      currentUrl := "";
      currentTitle := "";
      catalog := EmptyCatalog();
      presetsLoaded := false;
    }

    /** The main loop running every pending callback in order; a callback
        whose token is no longer current returns without doing anything. */
    method Drain()
      requires Ok()
      modifies this
      ensures State() == DrainSpec(old(State())) && Ok()
    {
      ghost var cbs := pending;
      var i := 0;
      while pending != []
        invariant 0 <= i <= |cbs| && pending == cbs[i..]
        invariant ApplyAll(ui, Live(pending, fetchToken)) == ApplyAll(old(ui), Live(cbs, fetchToken))
        invariant State() == old(State()).(ui := ui, pending := pending)
        decreases |pending|
      {
        var cb := pending[0];
        if cb.token == fetchToken {
          assert Live(pending, fetchToken) == [cb.effect] + Live(pending[1..], fetchToken);
          ApplyCons(ui, cb.effect, Live(pending[1..], fetchToken));
          ui := Apply(ui, cb.effect);
          assert ApplyAll(ui, Live(pending[1..], fetchToken)) == ApplyAll(old(ui), Live(cbs, fetchToken));
        } else {
          assert Live(pending, fetchToken) == Live(pending[1..], fetchToken);
        }
        pending := pending[1..];
        i := i + 1;
      }
    }
  }
}
