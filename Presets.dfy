/** Turning the chosen preset into the arguments of a download request
    (`start_download`, `get_selected_format_id`, `get_selected_preset` and the
    preset table that `get_video_info` installs). */
module Presets {
  import opened Wrappers
  import opened Text
  import Catalog

  /** The `kind` of a preset. The table below only uses `Selected`,
      `Selector` and `AudioFormat`; `start_download` also has branches for
      the other four. */
  datatype Kind = Selected | Selector | AudioFormat | Best | Worst | AudioBest | AudioWorst

  /** One preset dictionary: its name (the label shown), kind, the optional `format`
      selector and the optional `post` arguments. */
  datatype Preset = Preset(name: string, kind: Kind, format: Option<string>, post: Option<seq<string>>)

  function SelectorPreset(name: string, format: string): Preset {
    Preset(name, Selector, Some(format), None)
  }

  function AudioPreset(name: string, container: string): Preset {
    Preset(name, AudioFormat, Some("bestaudio"), Some(["--extract-audio", "--audio-format", container]))
  }

  /** The `preset_options` list installed after every successful fetch. */
  function PresetOptions(): seq<Preset> {
    [ Preset("Selected format", Selected, None, None),
      SelectorPreset("Best (auto)", "best"),
      SelectorPreset("Worst (auto)", "worst"),
      SelectorPreset("Best Video + Audio", "bestvideo+bestaudio/best"),
      SelectorPreset("Audio Only (best)", "bestaudio"),
      SelectorPreset("Audio Only (worst)", "worstaudio"),
      AudioPreset("MP3 (audio)", "mp3"),
      AudioPreset("M4A (audio)", "m4a"),
      SelectorPreset("720p", "bestvideo[height<=720]+bestaudio/best[height<=720]"),
      SelectorPreset("1080p", "bestvideo[height<=1080]+bestaudio/best[height<=1080]"),
      SelectorPreset("4K", "bestvideo[height<=2160]+bestaudio/best[height<=2160]") ]
  }

  /** `get_selected_format_id`: the dropdown id at the selected position, or
      none when the position is out of range. */
  function SelectedFormatId(selected: int, dropdownIds: seq<string>): (r: Option<string>)
    ensures r.Some? <==> 0 <= selected < |dropdownIds|
    ensures r.Some? ==> r.value == dropdownIds[selected] && r.value in dropdownIds
  {
    if selected < 0 || selected >= |dropdownIds| then None else Some(dropdownIds[selected])
  }

  /** `get_selected_preset`: the preset at the selected position, or none. */
  function SelectedPreset(selected: int, options: seq<Preset>): (r: Option<Preset>)
    ensures r.Some? <==> 0 <= selected < |options|
    ensures r.Some? ==> r.value == options[selected]
  {
    if selected < 0 || selected >= |options| then None else Some(options[selected])
  }

  /** What a preset resolves to: `format_id`, `format_selector`, `post_args`. */
  datatype Resolution = Resolution(formatId: Option<string>, selector: Option<string>, postArgs: Option<seq<string>>)

  /** The branch on `preset["kind"]` in `start_download`. `selectedId` is
      what `get_selected_format_id` returned. */
  function Resolve(preset: Option<Preset>, selectedId: Option<string>, videoIds: seq<string>,
                   audioId: Option<string>): Resolution
  {
    if preset.None? then Resolution(None, None, None)
    else match preset.value.kind
      case Selected => Resolution(selectedId, None, None)
      case Selector => Resolution(None, preset.value.format, preset.value.post)
      case AudioFormat => Resolution(None, preset.value.format, preset.value.post)
      case Best => Resolution(if videoIds != [] then Some(videoIds[0]) else None, None, None)
      case Worst => Resolution(if videoIds != [] then Some(videoIds[|videoIds| - 1]) else None, None, None)
      case AudioBest => Resolution(audioId, None, None)
      case AudioWorst => Resolution(audioId, None, None)
  }

  /** Each kind resolves as promised: `selected` to the dropdown id,
      selector kinds to their selector string and post arguments verbatim and
      never to an id, `best`/`worst` to the first/last video id or nothing
      when there is none, the audio kinds to the audio id. No preset sets
      both an id and a selector. */
  lemma ResolveByKind(p: Preset, selectedId: Option<string>, videoIds: seq<string>, audioId: Option<string>)
    ensures Resolve(Some(p), selectedId, videoIds, audioId).formatId.None?
         || Resolve(Some(p), selectedId, videoIds, audioId).selector.None?
    ensures p.kind == Selected ==>
      Resolve(Some(p), selectedId, videoIds, audioId) == Resolution(selectedId, None, None)
    ensures p.kind in {Selector, AudioFormat} ==>
      Resolve(Some(p), selectedId, videoIds, audioId) == Resolution(None, p.format, p.post)
    ensures p.kind == Best ==>
      && Resolve(Some(p), selectedId, videoIds, audioId).selector.None?
      && (Resolve(Some(p), selectedId, videoIds, audioId).formatId.None? <==> videoIds == [])
      && (videoIds != [] ==> Resolve(Some(p), selectedId, videoIds, audioId).formatId == Some(videoIds[0]))
    ensures p.kind == Worst ==>
      && Resolve(Some(p), selectedId, videoIds, audioId).selector.None?
      && (Resolve(Some(p), selectedId, videoIds, audioId).formatId.None? <==> videoIds == [])
      && (videoIds != [] ==> Resolve(Some(p), selectedId, videoIds, audioId).formatId == Some(videoIds[|videoIds| - 1]))
    ensures p.kind in {AudioBest, AudioWorst} ==>
      Resolve(Some(p), selectedId, videoIds, audioId) == Resolution(audioId, None, None)
  {
  }

  /** With no preset selected nothing is resolved. */
  lemma ResolveNoPreset(selectedId: Option<string>, videoIds: seq<string>, audioId: Option<string>)
    ensures Resolve(None, selectedId, videoIds, audioId) == Resolution(None, None, None)
  {
  }

  /** Every entry of the shipped table resolves either to the dropdown
      selection (the first entry) or to its own selector string and post
      arguments; in particular "Best (auto)" asks for the selector "best",
      not for the first video id, and the `best`, `worst`, `audio_best` and
      `audio_worst` branches are never reached from the table. */
  lemma TableResolution(i: int, selectedId: Option<string>, videoIds: seq<string>, audioId: Option<string>)
    requires 0 <= i < |PresetOptions()|
    ensures PresetOptions()[i].kind in {Selected, Selector, AudioFormat}
    ensures i == 0 <==> PresetOptions()[i].kind == Selected
    ensures i == 0 ==> Resolve(Some(PresetOptions()[i]), selectedId, videoIds, audioId) == Resolution(selectedId, None, None)
    ensures i > 0 ==>
      && Truthy(Resolve(Some(PresetOptions()[i]), selectedId, videoIds, audioId).selector)
      && Resolve(Some(PresetOptions()[i]), selectedId, videoIds, audioId).formatId.None?
    ensures i == 1 ==> Resolve(Some(PresetOptions()[i]), selectedId, videoIds, audioId) == Resolution(None, Some("best"), None)
  {
    var p := PresetOptions()[i];
    ResolveByKind(p, selectedId, videoIds, audioId);
  }

  /** The arguments `start_download` passes to `enqueue_download`. */
  datatype Request = Request(
    url: string,
    formatId: Option<string>,
    title: string,
    displayLabel: string,
    selector: Option<string>,
    postArgs: Option<seq<string>>)

  /** The part of the window's state `start_download` reads. */
  datatype Form = Form(
    currentUrl: string,
    entryText: string,
    currentTitle: string,
    presetIndex: int,
    presets: seq<Preset>,
    formatIndex: int,
    catalog: Catalog.Catalog)

  /** `self.current_url or self.url_entry.get_text().strip()`. */
  function RequestUrl(f: Form): string {
    if f.currentUrl != "" then f.currentUrl else Strip(f.entryText)
  }

  function ResolutionOf(f: Form): Resolution {
    Resolve(SelectedPreset(f.presetIndex, f.presets),
            SelectedFormatId(f.formatIndex, f.catalog.dropdownIds),
            f.catalog.videoIds, f.catalog.audioId)
  }

  /** The label shown in the queue: the selected row's label for the
      `selected` kind, otherwise the preset's label ("Selected format" when
      no preset is selected). */
  function DisplayLabel(f: Form): string {
    var preset := SelectedPreset(f.presetIndex, f.presets);
    if preset.Some? && preset.value.kind == Selected then
      (if 0 <= f.formatIndex < |f.catalog.formats| then f.catalog.formats[f.formatIndex].caption else "Format")
    else if preset.Some? then preset.value.name
    else "Selected format"
  }

  /** `start_download`: the request it enqueues, or none when it returns
      early. */
  function StartDownload(f: Form): (r: Option<Request>)
    ensures r.None? <==> RequestUrl(f) == "" || (!Truthy(ResolutionOf(f).formatId) && !Truthy(ResolutionOf(f).selector))
  {
    var url := RequestUrl(f);
    var res := ResolutionOf(f);
    if url == "" || (!Truthy(res.formatId) && !Truthy(res.selector)) then None
    else
      Some(Request(url, res.formatId, if f.currentTitle != "" then f.currentTitle else url,
                   DisplayLabel(f), res.selector, res.postArgs))
  }

  /** An enqueued request always names a URL and either a format id or a
      selector, never both; its title falls back to the URL. */
  lemma StartDownloadRequest(f: Form)
    requires StartDownload(f).Some?
    ensures StartDownload(f).value.url != ""
    ensures Truthy(StartDownload(f).value.formatId) || Truthy(StartDownload(f).value.selector)
    ensures StartDownload(f).value.formatId.None? || StartDownload(f).value.selector.None?
    ensures StartDownload(f).value.title == (if f.currentTitle != "" then f.currentTitle else StartDownload(f).value.url)
  {
    var p := SelectedPreset(f.presetIndex, f.presets);
    if p.Some? {
      ResolveByKind(p.value, SelectedFormatId(f.formatIndex, f.catalog.dropdownIds), f.catalog.videoIds, f.catalog.audioId);
    }
  }

  /** With the "Selected format" preset, the request downloads exactly the
      format the dropdown shows, labelled with that row's label; when the
      format dropdown is out of range nothing is enqueued. */
  lemma SelectedPresetRequest(f: Form)
    requires f.presets == PresetOptions() && f.presetIndex == 0 && RequestUrl(f) != ""
    requires f.catalog.dropdownIds == Catalog.Ids(f.catalog.formats)
    ensures !(0 <= f.formatIndex < |f.catalog.formats|) ==> StartDownload(f).None?
    ensures 0 <= f.formatIndex < |f.catalog.formats| && f.catalog.formats[f.formatIndex].formatId != "" ==>
      && StartDownload(f).Some?
      && StartDownload(f).value.formatId == Some(f.catalog.formats[f.formatIndex].formatId)
      && StartDownload(f).value.displayLabel == f.catalog.formats[f.formatIndex].caption
      && StartDownload(f).value.selector.None?
  {
    TableResolution(0, SelectedFormatId(f.formatIndex, f.catalog.dropdownIds), f.catalog.videoIds, f.catalog.audioId);
  }

  /** The `best` kind on a catalog without video ids resolves to nothing, so
      `start_download` refuses to enqueue. */
  lemma BestOnEmptyRefused(f: Form)
    requires 0 <= f.presetIndex < |f.presets| && f.presets[f.presetIndex].kind in {Best, Worst}
    requires f.catalog.videoIds == []
    ensures StartDownload(f).None?
  {
  }
}
