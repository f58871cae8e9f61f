/**
 * `SteamDeckProtonDbSettings`: the seven user options with their defaults,
 * validation, and the edit snapshot the settings dialog uses (`BeginEdit`
 * takes a copy, `CancelEdit` puts it back).
 */
module Settings {
  import opened Common
  import ProtonDb

  /** The seven persisted options. */
  datatype Settings = Settings(
    enableSteamDeckCategories: bool,
    enableProtonDbCategories: bool,
    enableProtonDbLink: bool,
    enableTags: bool,
    cacheTtlMinutes: int,
    protonDbApiUrl: string,
    useFileCache: bool)

  /** The field initialisers: everything on, a one-day TTL, the public summary endpoint, the file cache. */
  function Defaults(): (s: Settings)
    ensures s.enableSteamDeckCategories && s.enableProtonDbCategories && s.enableProtonDbLink && s.enableTags
    ensures s.cacheTtlMinutes == 1440 && s.useFileCache
    ensures s.protonDbApiUrl == ProtonDb.DefaultApiUrl
  {
    Settings(true, true, true, true, 1440, "https://www.protondb.com/api/v1/reports/summaries/{0}.json", true)
  }

  /** The only message `VerifySettings` can report. */
  const NegativeTtlError: string := "Cache TTL must be non-negative."

  /** `VerifySettings`: whether the settings may be saved, and the errors found. */
  datatype Verdict = Verdict(ok: bool, errors: seq<string>)

  function VerifySettings(s: Settings): (v: Verdict)
    ensures v.ok <==> |v.errors| == 0
    ensures v.ok <==> s.cacheTtlMinutes >= 0
    ensures !v.ok ==> v.errors == [NegativeTtlError]
  {
    var errors := if s.cacheTtlMinutes < 0 then [NegativeTtlError] else [];
    Verdict(|errors| == 0, errors)
  }

  /** The defaults pass validation. */
  lemma DefaultsAreValid()
    ensures VerifySettings(Defaults()).ok
  {
  }

  /** The settings object as the dialog sees it: the live values and the snapshot, if one was taken. */
  datatype Editor = Editor(current: Settings, clone: Option<Settings>)

  /** A fresh settings object: the defaults, no snapshot. */
  function NewEditor(): Editor {
    Editor(Defaults(), None)
  }

  /** `BeginEdit`: snapshot the current values. */
  function BeginEdit(e: Editor): (r: Editor)
    ensures r.current == e.current && r.clone == Some(e.current)
  {
    e.(clone := Some(e.current))
  }

  /** One property setter called by the dialog. */
  datatype Edit =
    | SetEnableSteamDeckCategories(b: bool)
    | SetEnableProtonDbCategories(b: bool)
    | SetEnableProtonDbLink(b: bool)
    | SetEnableTags(b: bool)
    | SetCacheTtlMinutes(n: int)
    | SetProtonDbApiUrl(url: string)
    | SetUseFileCache(b: bool)

  function ApplyEdit(e: Editor, edit: Edit): (r: Editor)
    ensures r.clone == e.clone
  {
    var s := e.current;
    var s' := match edit
      case SetEnableSteamDeckCategories(b) => s.(enableSteamDeckCategories := b)
      case SetEnableProtonDbCategories(b) => s.(enableProtonDbCategories := b)
      case SetEnableProtonDbLink(b) => s.(enableProtonDbLink := b)
      case SetEnableTags(b) => s.(enableTags := b)
      case SetCacheTtlMinutes(n) => s.(cacheTtlMinutes := n)
      case SetProtonDbApiUrl(url) => s.(protonDbApiUrl := url)
      case SetUseFileCache(b) => s.(useFileCache := b);
    e.(current := s')
  }

  /** A sequence of setter calls, in order. */
  function ApplyEdits(e: Editor, edits: seq<Edit>): Editor
    decreases |edits|
  {
    if |edits| == 0 then e else ApplyEdits(ApplyEdit(e, edits[0]), edits[1..])
  }

  /** `CancelEdit`: copy all seven fields back from the snapshot, if there is one; otherwise do nothing. */
  function CancelEdit(e: Editor): (r: Editor)
    ensures r.clone == e.clone
    ensures e.clone.Some? ==> r.current == e.clone.value
    ensures e.clone.None? ==> r == e
  {
    match e.clone
    case Some(snapshot) =>
      var s := e.current
        .(enableSteamDeckCategories := snapshot.enableSteamDeckCategories)
        .(enableProtonDbCategories := snapshot.enableProtonDbCategories)
        .(enableProtonDbLink := snapshot.enableProtonDbLink)
        .(enableTags := snapshot.enableTags)
        .(cacheTtlMinutes := snapshot.cacheTtlMinutes)
        .(protonDbApiUrl := snapshot.protonDbApiUrl)
        .(useFileCache := snapshot.useFileCache);
      e.(current := s)
    case None => e
  }

  /** Setters never touch the snapshot. */
  lemma {:induction false} EditsKeepSnapshot(e: Editor, edits: seq<Edit>)
    ensures ApplyEdits(e, edits).clone == e.clone
    decreases |edits|
  {
    if |edits| > 0 {
      EditsKeepSnapshot(ApplyEdit(e, edits[0]), edits[1..]);
    }
  }

  /** `BeginEdit`, any setter calls, then `CancelEdit` gives back exactly the values `BeginEdit` saw. */
  lemma CancelRestoresSnapshot(e: Editor, edits: seq<Edit>)
    ensures CancelEdit(ApplyEdits(BeginEdit(e), edits)).current == e.current
  {
    EditsKeepSnapshot(BeginEdit(e), edits);
  }

  /** Without a snapshot, `CancelEdit` changes nothing. */
  lemma CancelWithoutBeginIsNoOp(e: Editor)
    requires e.clone.None?
    ensures CancelEdit(e) == e
  {
  }

  /** The snapshot outlives a cancel: cancelling again after more edits restores the same values. */
  lemma CancelTwice(e: Editor, edits1: seq<Edit>, edits2: seq<Edit>)
    ensures var once := CancelEdit(ApplyEdits(BeginEdit(e), edits1));
      CancelEdit(ApplyEdits(once, edits2)).current == e.current
  {
    var once := CancelEdit(ApplyEdits(BeginEdit(e), edits1));
    EditsKeepSnapshot(BeginEdit(e), edits1);
    EditsKeepSnapshot(once, edits2);
  }
}
