/**
 Which streams of a probed file reach the Matroska output, which of them are default, and
 whether a downmix is added: RunProbe (workflows/media/probe.go), RunTranscode and its index
 helpers (workflows/media/transcode.go), buildStreamStates, outputDisposition and the default
 flags of setupOutputContext (pkg/ffmpeg/transcode.go). The prober and the demuxer are taken
 to agree on the streams of a file.
 */
module StreamSelection {
  import opened Wrappers

  datatype Kind = Video | Audio | Subtitle | Attachment | Other

  datatype Track = Track(
    index: nat,
    kind: Kind,
    language: string,
    channels: nat,
    isDefault: bool,
    attachedPic: bool,
    stillImage: bool)

  ghost predicate Distinct(ts: seq<Track>) {
    forall i, j :: 0 <= i < j < |ts| ==> ts[i].index != ts[j].index
  }

  // --- What the probe reports ---

  datatype StreamInfo = StreamInfo(index: nat, language: string, channels: nat) {
    predicate English() {
      language == "eng"
    }
  }

  const UNKNOWN_LAYOUT_CHANNELS := 6

  function EffectiveChannels(reported: nat): nat {
    if reported == 0 then UNKNOWN_LAYOUT_CHANNELS else reported
  }

  function InfoOf(t: Track): StreamInfo {
    StreamInfo(t.index, t.language, if t.kind.Audio? then EffectiveChannels(t.channels) else 0)
  }

  function Infos(ts: seq<Track>, kind: Kind): seq<StreamInfo> {
    if ts == [] then []
    else
      var last := ts[|ts| - 1];
      Infos(ts[..|ts| - 1], kind) + if last.kind == kind then [InfoOf(last)] else []
  }

  datatype ProbeOutput = Invalid | Valid(audio: seq<StreamInfo>, subtitles: seq<StreamInfo>)

  /** `imageFormat` is the demuxer of a format that only looks like a video. */
  method RunProbe(ts: seq<Track>, imageFormat: bool) returns (probe: ProbeOutput)
    ensures probe == if !imageFormat && (exists t :: t in ts && t.kind.Video?)
                     then Valid(Infos(ts, Audio), Infos(ts, Subtitle)) else Invalid
  {
    var audio, subtitles := [], [];
    for i := 0 to |ts|
      invariant audio == Infos(ts[..i], Audio) && subtitles == Infos(ts[..i], Subtitle)
    {
      assert ts[..i + 1][..i] == ts[..i];
      match ts[i].kind {
        case Audio =>
          var effective := ts[i].channels;
          if effective == 0 {
            effective := UNKNOWN_LAYOUT_CHANNELS;
          }
          audio := audio + [StreamInfo(ts[i].index, ts[i].language, effective)];
        case Subtitle =>
          subtitles := subtitles + [StreamInfo(ts[i].index, ts[i].language, 0)];
        case _ =>
      }
    }
    assert ts[..|ts|] == ts;
    for i := 0 to |ts|
      invariant forall j :: 0 <= j < i ==> !(ts[j].kind.Video? && !imageFormat)
    {
      if ts[i].kind.Video? && !imageFormat {
        return Valid(audio, subtitles);
      }
    }
    return Invalid;
  }

  // --- What the transcode asks for ---

  function NonEnglish(ss: seq<StreamInfo>): seq<nat> {
    if ss == [] then []
    else
      var last := ss[|ss| - 1];
      NonEnglish(ss[..|ss| - 1]) + if last.English() then [] else [last.index]
  }

  predicate HasEnglish(ss: seq<StreamInfo>) {
    exists s :: s in ss && s.English()
  }

  function AudioExclusions(ss: seq<StreamInfo>): seq<nat> {
    if HasEnglish(ss) then NonEnglish(ss) else []
  }

  function Retained(ss: seq<StreamInfo>, excluded: seq<nat>): seq<StreamInfo> {
    if ss == [] then []
    else
      var last := ss[|ss| - 1];
      Retained(ss[..|ss| - 1], excluded) + if last.index in excluded then [] else [last]
  }

  function FirstEnglish(ss: seq<StreamInfo>): Option<nat> {
    if ss == [] then None
    else
      var earlier, last := FirstEnglish(ss[..|ss| - 1]), ss[|ss| - 1];
      if earlier.None? && last.English() then Some(last.index) else earlier
  }

  function FirstSurround(ss: seq<StreamInfo>): Option<nat> {
    if ss == [] then None
    else
      var earlier, last := FirstSurround(ss[..|ss| - 1]), ss[|ss| - 1];
      if earlier.None? && last.channels >= 4 then Some(last.index) else earlier
  }

  predicate StereoCompatible(s: StreamInfo) {
    0 < s.channels <= 3
  }

  function DownmixSource(ss: seq<StreamInfo>): Option<nat> {
    if exists s :: s in ss && StereoCompatible(s) then None else FirstSurround(ss)
  }

  /** How the transcoder is set up. */
  datatype Options = Options(
    excluded: set<nat>,
    defaultAudio: Option<nat>,
    defaultSubtitle: Option<nat>,
    downmix: Option<nat>,
    coverArt: bool)

  function Elements(xs: seq<nat>): set<nat> {
    set x | x in xs
  }

  function OptionsFor(audio: seq<StreamInfo>, subtitles: seq<StreamInfo>, coverArt: bool): Options {
    Options(Elements(AudioExclusions(audio) + NonEnglish(subtitles)),
            FirstEnglish(audio), FirstEnglish(subtitles),
            DownmixSource(Retained(audio, AudioExclusions(audio))), coverArt)
  }

  function OptionsOf(ts: seq<Track>, coverArt: bool): Options {
    OptionsFor(Infos(ts, Audio), Infos(ts, Subtitle), coverArt)
  }

  function RetainedAudio(ts: seq<Track>): seq<StreamInfo> {
    Retained(Infos(ts, Audio), AudioExclusions(Infos(ts, Audio)))
  }

  method NonEnglishAudioIndices(streams: seq<StreamInfo>) returns (exclude: seq<nat>)
    ensures exclude == AudioExclusions(streams)
  {
    var hasEnglish := false;
    for i := 0 to |streams|
      invariant !hasEnglish
      invariant forall j :: 0 <= j < i ==> !streams[j].English()
    {
      if streams[i].English() {
        hasEnglish := true;
        break;
      }
    }
    if !hasEnglish {
      return [];
    }
    exclude := [];
    for i := 0 to |streams|
      invariant exclude == NonEnglish(streams[..i])
    {
      assert streams[..i + 1][..i] == streams[..i];
      if !streams[i].English() {
        exclude := exclude + [streams[i].index];
      }
    }
    assert streams[..|streams|] == streams;
  }

  method NonEnglishSubtitleIndices(streams: seq<StreamInfo>) returns (exclude: seq<nat>)
    ensures exclude == NonEnglish(streams)
  {
    exclude := [];
    for i := 0 to |streams|
      invariant exclude == NonEnglish(streams[..i])
    {
      assert streams[..i + 1][..i] == streams[..i];
      if !streams[i].English() {
        exclude := exclude + [streams[i].index];
      }
    }
    assert streams[..|streams|] == streams;
  }

  method FirstEnglishIndex(streams: seq<StreamInfo>) returns (first: Option<nat>)
    ensures first == FirstEnglish(streams)
  {
    for i := 0 to |streams|
      invariant FirstEnglish(streams[..i]).None?
    {
      assert streams[..i + 1][..i] == streams[..i];
      if streams[i].English() {
        FirstEnglishStays(streams, i + 1);
        return Some(streams[i].index);
      }
    }
    assert streams[..|streams|] == streams;
    return None;
  }

  lemma {:induction false} FirstEnglishStays(ss: seq<StreamInfo>, n: nat)
    requires n <= |ss| && FirstEnglish(ss[..n]).Some?
    ensures FirstEnglish(ss) == FirstEnglish(ss[..n])
    decreases |ss|
  {
    if n < |ss| {
      assert ss[..|ss| - 1][..n] == ss[..n];
      FirstEnglishStays(ss[..|ss| - 1], n);
    } else {
      assert ss[..n] == ss;
    }
  }

  method DownmixSourceIndex(streams: seq<StreamInfo>) returns (source: Option<nat>)
    ensures source == DownmixSource(streams)
  {
    source := None;
    for i := 0 to |streams|
      invariant source == FirstSurround(streams[..i])
      invariant forall j :: 0 <= j < i ==> !StereoCompatible(streams[j])
    {
      assert streams[..i + 1][..i] == streams[..i];
      if streams[i].channels > 0 && streams[i].channels <= 3 {
        assert StereoCompatible(streams[i]);
        return None;
      }
      if streams[i].channels >= 4 && source.None? {
        source := Some(streams[i].index);
      }
    }
    assert streams[..|streams|] == streams;
  }

  /** The part of RunTranscode that sets the transcoder up. */
  method ChooseStreams(audio: seq<StreamInfo>, subtitles: seq<StreamInfo>, coverArt: bool) returns (o: Options)
    ensures o == OptionsFor(audio, subtitles, coverArt)
  {
    var audioExclude := NonEnglishAudioIndices(audio);
    var subtitleExclude := NonEnglishSubtitleIndices(subtitles);
    var retained := [];
    for i := 0 to |audio|
      invariant retained == Retained(audio[..i], audioExclude)
    {
      assert audio[..i + 1][..i] == audio[..i];
      if audio[i].index !in audioExclude {
        retained := retained + [audio[i]];
      }
    }
    assert audio[..|audio|] == audio;
    var defaultAudio := FirstEnglishIndex(audio);
    var defaultSubtitle := FirstEnglishIndex(subtitles);
    var downmix := DownmixSourceIndex(retained);
    return Options(Elements(audioExclude + subtitleExclude), defaultAudio, defaultSubtitle, downmix, coverArt);
  }

  // --- What the transcoder makes of it ---

  predicate RealVideo(o: Options, t: Track) {
    t.index !in o.excluded && t.kind.Video? && !t.attachedPic && !t.stillImage
  }

  predicate HasRealVideo(ts: seq<Track>, o: Options) {
    exists t :: t in ts && RealVideo(o, t)
  }

  /** Whether a stream gets a place in the output; `hasReal` tells that some real video does. */
  predicate Kept(o: Options, hasReal: bool, t: Track) {
    && t.index !in o.excluded
    && !(t.kind.Video? && t.attachedPic)
    && !(t.kind.Video? && hasReal && t.stillImage)
    && !(t.kind.Attachment? && o.coverArt)
    && !t.kind.Other?
  }

  function DefaultFor(o: Options, kind: Kind): Option<nat> {
    match kind
    case Audio => o.defaultAudio
    case Subtitle => o.defaultSubtitle
    case _ => None
  }

  function OutputDefault(o: Options, t: Track): bool {
    match DefaultFor(o, t.kind)
    case None => t.isDefault
    case Some(i) => t.index == i
  }

  datatype OutTrack = OutTrack(source: Track, isDefault: bool)

  function Outputs(ts: seq<Track>, o: Options, hasReal: bool): seq<OutTrack> {
    if ts == [] then []
    else
      var last := ts[|ts| - 1];
      Outputs(ts[..|ts| - 1], o, hasReal) + if Kept(o, hasReal, last) then [OutTrack(last, OutputDefault(o, last))] else []
  }

  function Defaults(outs: seq<OutTrack>, kind: Kind): seq<Track> {
    if outs == [] then []
    else
      var last := outs[|outs| - 1];
      Defaults(outs[..|outs| - 1], kind) + if last.source.kind == kind && last.isDefault then [last.source] else []
  }

  /** The tracks in input order, and the default flag of the downmix if there is one. */
  datatype Output = Output(tracks: seq<OutTrack>, downmix: Option<bool>)

  function OutputOf(ts: seq<Track>, o: Options): Output {
    var tracks := Outputs(ts, o, HasRealVideo(ts, o));
    Output(tracks, if o.downmix.None? then None else Some(Defaults(tracks, Audio) == []))
  }

  /** How many of the output's audio tracks are default. */
  function DefaultAudioCount(out: Output): nat {
    |Defaults(out.tracks, Audio)| + if out.downmix == Some(true) then 1 else 0
  }

  /** buildStreamStates: the input streams to process, by index. */
  method BuildStreamStates(ts: seq<Track>, o: Options) returns (streams: map<nat, Track>)
    requires Distinct(ts)
    ensures forall t :: t in ts ==> (t.index in streams <==> Kept(o, HasRealVideo(ts, o), t))
    ensures forall i :: i in streams ==> streams[i] in ts && streams[i].index == i
  {
    var hasReal := false;
    for i := 0 to |ts|
      invariant !hasReal && forall j :: 0 <= j < i ==> !RealVideo(o, ts[j])
    {
      if ts[i].index !in o.excluded && ts[i].kind.Video? && !ts[i].attachedPic && !ts[i].stillImage {
        hasReal := true;
        assert RealVideo(o, ts[i]);
        break;
      }
    }
    assert hasReal <==> HasRealVideo(ts, o);
    streams := map[];
    for i := 0 to |ts|
      invariant forall j :: 0 <= j < i ==> (ts[j].index in streams <==> Kept(o, hasReal, ts[j]))
      invariant forall k :: k in streams ==> streams[k] in ts[..i] && streams[k].index == k
    {
      var t := ts[i];
      assert t.index !in streams;
      if t.index in o.excluded {
        continue;
      }
      if t.kind.Video? && t.attachedPic {
        continue;
      }
      if t.kind.Video? && hasReal && t.stillImage {
        continue;
      }
      if o.coverArt && t.kind.Attachment? {
        continue;
      }
      if t.kind.Other? {
        continue;
      }
      streams := streams[t.index := t];
    }
  }

  /** The default flags that setupOutputContext gives to the streams it creates. */
  method SetupOutput(ts: seq<Track>, streams: map<nat, Track>, o: Options) returns (out: Output)
    requires forall t :: t in ts ==> (t.index in streams <==> Kept(o, HasRealVideo(ts, o), t))
    ensures out == OutputOf(ts, o)
  {
    ghost var hasReal := HasRealVideo(ts, o);
    var tracks := [];
    for i := 0 to |ts|
      invariant tracks == Outputs(ts[..i], o, hasReal)
    {
      assert ts[..i + 1][..i] == ts[..i];
      if ts[i].index in streams {
        tracks := tracks + [OutTrack(ts[i], OutputDefault(o, ts[i]))];
      }
    }
    assert ts[..|ts|] == ts;
    if o.downmix.None? {
      return Output(tracks, None);
    }
    var hasDefaultAudio := HasDefaultAudio(ts, streams, o);
    return Output(tracks, Some(!hasDefaultAudio));
  }

  /** The scan that decides the downmix's own flag. */
  method HasDefaultAudio(ts: seq<Track>, streams: map<nat, Track>, o: Options) returns (found: bool)
    requires forall t :: t in ts ==> (t.index in streams <==> Kept(o, HasRealVideo(ts, o), t))
    ensures found <==> Defaults(Outputs(ts, o, HasRealVideo(ts, o)), Audio) != []
  {
    ghost var hasReal := HasRealVideo(ts, o);
    DefaultsEmptyIff(ts, o, hasReal, Audio);
    for i := 0 to |ts|
      invariant forall j :: 0 <= j < i ==> !(ts[j].kind.Audio? && Kept(o, hasReal, ts[j]) && OutputDefault(o, ts[j]))
    {
      if ts[i].kind.Audio? && ts[i].index in streams && OutputDefault(o, ts[i]) {
        assert ts[i] in ts;
        return true;
      }
    }
    return false;
  }

  lemma {:induction false} DefaultsOfOutputs(ts: seq<Track>, o: Options, hasReal: bool, kind: Kind)
    ensures forall t :: t in Defaults(Outputs(ts, o, hasReal), kind)
                   <==> t in ts && t.kind == kind && Kept(o, hasReal, t) && OutputDefault(o, t)
  {
    if ts != [] {
      DefaultsOfOutputs(ts[..|ts| - 1], o, hasReal, kind);
      DefaultsSnoc(ts, o, hasReal, kind);
      assert ts == ts[..|ts| - 1] + [ts[|ts| - 1]];
    }
  }

  lemma DefaultsSnoc(ts: seq<Track>, o: Options, hasReal: bool, kind: Kind)
    requires ts != []
    ensures var last := ts[|ts| - 1];
            Defaults(Outputs(ts, o, hasReal), kind)
              == Defaults(Outputs(ts[..|ts| - 1], o, hasReal), kind)
               + if last.kind == kind && Kept(o, hasReal, last) && OutputDefault(o, last) then [last] else []
  {
    var last, before := ts[|ts| - 1], Outputs(ts[..|ts| - 1], o, hasReal);
    if Kept(o, hasReal, last) {
      var outs := Outputs(ts, o, hasReal);
      assert outs == before + [OutTrack(last, OutputDefault(o, last))];
      assert outs[..|outs| - 1] == before;
    } else {
      assert Outputs(ts, o, hasReal) == before;
    }
  }

  lemma DefaultsEmptyIff(ts: seq<Track>, o: Options, hasReal: bool, kind: Kind)
    ensures Defaults(Outputs(ts, o, hasReal), kind) == []
       <==> forall t :: t in ts ==> !(t.kind == kind && Kept(o, hasReal, t) && OutputDefault(o, t))
  {
    DefaultsOfOutputs(ts, o, hasReal, kind);
    var ds := Defaults(Outputs(ts, o, hasReal), kind);
    if ds != [] {
      assert ds[0] in ds;
    }
  }

  // --- Membership ---

  lemma {:induction false} OutputsHold(ts: seq<Track>, o: Options, hasReal: bool)
    ensures forall out :: out in Outputs(ts, o, hasReal)
                     <==> out.source in ts && Kept(o, hasReal, out.source) && out.isDefault == OutputDefault(o, out.source)
  {
    if ts != [] {
      OutputsHold(ts[..|ts| - 1], o, hasReal);
      assert ts == ts[..|ts| - 1] + [ts[|ts| - 1]];
    }
  }

  lemma {:induction false} InfosHold(ts: seq<Track>, kind: Kind)
    ensures forall t :: t in ts && t.kind == kind ==> InfoOf(t) in Infos(ts, kind)
    ensures forall s :: s in Infos(ts, kind) ==> exists t :: t in ts && t.kind == kind && s == InfoOf(t)
  {
    if ts != [] {
      var before, last := ts[..|ts| - 1], ts[|ts| - 1];
      InfosHold(before, kind);
      assert ts == before + [last];
      forall s | s in Infos(ts, kind) ensures exists t :: t in ts && t.kind == kind && s == InfoOf(t) {
        if s in Infos(before, kind) {
          var t :| t in before && t.kind == kind && s == InfoOf(t);
          assert t in ts;
        } else {
          assert s == InfoOf(last);
        }
      }
    }
  }

  lemma {:induction false} NonEnglishHolds(ss: seq<StreamInfo>)
    ensures forall i :: i in NonEnglish(ss) <==> exists s :: s in ss && !s.English() && s.index == i
  {
    if ss != [] {
      var before, last := ss[..|ss| - 1], ss[|ss| - 1];
      NonEnglishHolds(before);
      assert ss == before + [last];
    }
  }

  lemma {:induction false} RetainedHolds(ss: seq<StreamInfo>, excluded: seq<nat>)
    ensures forall s :: s in Retained(ss, excluded) <==> s in ss && s.index !in excluded
  {
    if ss != [] {
      RetainedHolds(ss[..|ss| - 1], excluded);
      assert ss == ss[..|ss| - 1] + [ss[|ss| - 1]];
    }
  }

  predicate IsEnglish(t: Track, kind: Kind) {
    t.kind == kind && t.language == "eng"
  }

  ghost predicate Speaks(ts: seq<Track>, kind: Kind) {
    exists t :: t in ts && IsEnglish(t, kind)
  }

  lemma SpeaksIff(ts: seq<Track>, kind: Kind)
    ensures HasEnglish(Infos(ts, kind)) <==> Speaks(ts, kind)
  {
    InfosHold(ts, kind);
    if Speaks(ts, kind) {
      var t :| t in ts && IsEnglish(t, kind);
      assert InfoOf(t) in Infos(ts, kind) && InfoOf(t).English();
    }
  }

  /** With distinct indices, excluding by index is excluding by kind and language. */
  lemma NonEnglishIff(ts: seq<Track>, kind: Kind, t: Track)
    requires Distinct(ts) && t in ts
    ensures t.index in NonEnglish(Infos(ts, kind)) <==> t.kind == kind && t.language != "eng"
  {
    InfosHold(ts, kind);
    NonEnglishHolds(Infos(ts, kind));
    if t.kind == kind && t.language != "eng" {
      assert InfoOf(t) in Infos(ts, kind) && !InfoOf(t).English();
    }
    if t.index in NonEnglish(Infos(ts, kind)) {
      var s :| s in Infos(ts, kind) && !s.English() && s.index == t.index;
      var u :| u in ts && u.kind == kind && s == InfoOf(u);
    }
  }

  lemma ExcludedIff(ts: seq<Track>, coverArt: bool, t: Track)
    requires Distinct(ts) && t in ts
    ensures t.index in OptionsOf(ts, coverArt).excluded
       <==> t.language != "eng" && (t.kind.Subtitle? || (t.kind.Audio? && Speaks(ts, Audio)))
  {
    NonEnglishIff(ts, Audio, t);
    NonEnglishIff(ts, Subtitle, t);
    SpeaksIff(ts, Audio);
  }

  // --- The output ---

  ghost predicate HasKind(ts: seq<Track>, kind: Kind) {
    exists t :: t in ts && t.kind == kind
  }

  ghost predicate Carries(out: Output, kind: Kind) {
    exists t :: t in out.tracks && t.source.kind == kind
  }

  function Result(ts: seq<Track>, coverArt: bool): Output {
    OutputOf(ts, OptionsOf(ts, coverArt))
  }

  lemma CarriesKept(ts: seq<Track>, o: Options, t: Track)
    requires t in ts && Kept(o, HasRealVideo(ts, o), t)
    ensures Carries(OutputOf(ts, o), t.kind)
  {
    OutputsHold(ts, o, HasRealVideo(ts, o));
    assert OutTrack(t, OutputDefault(o, t)) in OutputOf(ts, o).tracks;
  }

  /** The language filter never silences a file: the output has audio exactly when the input has. */
  lemma AudioSurvives(ts: seq<Track>, coverArt: bool)
    requires Distinct(ts)
    ensures Carries(Result(ts, coverArt), Audio) <==> HasKind(ts, Audio)
  {
    var o := OptionsOf(ts, coverArt);
    OutputsHold(ts, o, HasRealVideo(ts, o));
    if HasKind(ts, Audio) {
      var t :| t in ts && t.kind == Audio;
      if Speaks(ts, Audio) {
        t :| t in ts && IsEnglish(t, Audio);
      }
      ExcludedIff(ts, coverArt, t);
      CarriesKept(ts, o, t);
    }
  }

  /**
   Whatever streams the caller excludes, the Matroska output has a video track exactly when
   some remaining video stream is not an attached picture.
   */
  lemma VideoSurvivesIff(ts: seq<Track>, o: Options)
    ensures Carries(OutputOf(ts, o), Video)
       <==> exists t :: t in ts && t.index !in o.excluded && t.kind.Video? && !t.attachedPic
  {
    var hasReal := HasRealVideo(ts, o);
    OutputsHold(ts, o, hasReal);
    if t :| t in ts && t.index !in o.excluded && t.kind.Video? && !t.attachedPic {
      if hasReal {
        var r :| r in ts && RealVideo(o, r);
        CarriesKept(ts, o, r);
      } else {
        CarriesKept(ts, o, t);
      }
    }
  }

  /** What reaches the output, kind by kind. */
  ghost predicate Belongs(ts: seq<Track>, coverArt: bool, t: Track) {
    match t.kind
    case Video => !t.attachedPic && (t.stillImage ==> !HasMotion(ts))
    case Audio => Speaks(ts, Audio) ==> t.language == "eng"
    case Subtitle => t.language == "eng"
    case Attachment => !coverArt
    case Other => false
  }

  /** There is a video stream that is neither cover art nor a still. */
  ghost predicate HasMotion(ts: seq<Track>) {
    exists t :: t in ts && t.kind.Video? && !t.attachedPic && !t.stillImage
  }

  lemma KeptIff(ts: seq<Track>, coverArt: bool, t: Track)
    requires Distinct(ts) && t in ts
    ensures Kept(OptionsOf(ts, coverArt), HasRealVideo(ts, OptionsOf(ts, coverArt)), t) <==> Belongs(ts, coverArt, t)
  {
    var o := OptionsOf(ts, coverArt);
    ExcludedIff(ts, coverArt, t);
    forall u | u in ts ensures RealVideo(o, u) <==> u.kind.Video? && !u.attachedPic && !u.stillImage {
      ExcludedIff(ts, coverArt, u);
    }
    assert HasRealVideo(ts, o) <==> HasMotion(ts);
  }

  /** `at` lists, in order, the streams kept. */
  ghost predicate Lists(ts: seq<Track>, o: Options, hasReal: bool, outs: seq<OutTrack>, at: seq<nat>) {
    && |at| == |outs|
    && (forall j, k :: 0 <= j < k < |at| ==> at[j] < at[k])
    && (forall k :: 0 <= k < |at| ==> at[k] < |ts| && outs[k].source == ts[at[k]])
    && (forall n: nat :: n < |ts| ==> (n in at <==> Kept(o, hasReal, ts[n])))
  }

  lemma {:induction false} OutputsList(ts: seq<Track>, o: Options, hasReal: bool) returns (at: seq<nat>)
    ensures Lists(ts, o, hasReal, Outputs(ts, o, hasReal), at)
  {
    at := [];
    if ts != [] {
      var before := ts[..|ts| - 1];
      at := OutputsList(before, o, hasReal);
      if Kept(o, hasReal, ts[|before|]) {
        at := at + [|before|];
        assert at[|at| - 1] == |before|;
      }
      assert forall n: nat :: n < |before| ==> ts[n] == before[n];
    }
  }

  /**
   The tracks of the output are exactly the streams that belong there, in input order: video but no
   cover art, and stills only without any other; the English audio, or all of it when none is;
   English subtitles; attachments unless new cover art is given; and nothing Matroska cannot hold.
   */
  lemma OutputTracksIff(ts: seq<Track>, coverArt: bool) returns (at: seq<nat>)
    requires Distinct(ts)
    ensures var tracks := Result(ts, coverArt).tracks;
            && |at| == |tracks|
            && (forall j, k :: 0 <= j < k < |at| ==> at[j] < at[k])
            && (forall k :: 0 <= k < |at| ==> at[k] < |ts| && tracks[k].source == ts[at[k]])
            && (forall n: nat :: n < |ts| ==> (n in at <==> Belongs(ts, coverArt, ts[n])))
  {
    var o := OptionsOf(ts, coverArt);
    at := OutputsList(ts, o, HasRealVideo(ts, o));
    forall n: nat | n < |ts| ensures Kept(o, HasRealVideo(ts, o), ts[n]) <==> Belongs(ts, coverArt, ts[n]) {
      KeptIff(ts, coverArt, ts[n]);
    }
  }

  // --- Default flags ---

  /** The first English stream of a kind. */
  ghost predicate IsFirstEnglish(ts: seq<Track>, kind: Kind, k: nat) {
    && k < |ts| && IsEnglish(ts[k], kind)
    && (forall j :: 0 <= j < k ==> !IsEnglish(ts[j], kind))
  }

  ghost predicate JustFirstEnglish(ts: seq<Track>, kind: Kind, found: seq<Track>) {
    exists k: nat :: IsFirstEnglish(ts, kind, k) && found == [ts[k]]
  }

  lemma {:induction false} FirstEnglishIs(ts: seq<Track>, kind: Kind) returns (k: nat)
    requires Speaks(ts, kind)
    ensures IsFirstEnglish(ts, kind, k) && FirstEnglish(Infos(ts, kind)) == Some(ts[k].index)
  {
    var before, last := ts[..|ts| - 1], ts[|ts| - 1];
    if Speaks(before, kind) {
      k := FirstEnglishIs(before, kind);
    } else {
      k := |ts| - 1;
      NoneEnglish(before, kind);
      forall j | 0 <= j < k ensures !IsEnglish(ts[j], kind) {
        assert ts[j] == before[j];
      }
    }
    if last.kind == kind {
      var infos := Infos(before, kind) + [InfoOf(last)];
      assert Infos(ts, kind) == infos && infos[..|infos| - 1] == Infos(before, kind);
    } else {
      assert Infos(ts, kind) == Infos(before, kind);
    }
  }

  lemma {:induction false} NoneEnglish(ts: seq<Track>, kind: Kind)
    requires !Speaks(ts, kind)
    ensures FirstEnglish(Infos(ts, kind)).None?
  {
    if ts != [] {
      var before, last := ts[..|ts| - 1], ts[|ts| - 1];
      assert last in ts;
      assert forall t :: t in before ==> t in ts;
      NoneEnglish(before, kind);
      if last.kind == kind {
        var infos := Infos(before, kind) + [InfoOf(last)];
        assert Infos(ts, kind) == infos && infos[..|infos| - 1] == Infos(before, kind);
      } else {
        assert Infos(ts, kind) == Infos(before, kind);
      }
    }
  }

  lemma {:induction false} OnlyDefault(ts: seq<Track>, o: Options, hasReal: bool, kind: Kind, k: nat, n: nat)
    requires Distinct(ts) && k < |ts| && n <= |ts|
    requires ts[k].kind == kind && Kept(o, hasReal, ts[k]) && DefaultFor(o, kind) == Some(ts[k].index)
    ensures Defaults(Outputs(ts[..n], o, hasReal), kind) == if k < n then [ts[k]] else []
    decreases n
  {
    if n > 0 {
      OnlyDefault(ts, o, hasReal, kind, k, n - 1);
      assert ts[..n][..n - 1] == ts[..n - 1];
      DefaultsSnoc(ts[..n], o, hasReal, kind);
    }
  }

  /** Only the first English track of a kind is default, if there is one. */
  lemma FirstEnglishIsOnlyDefault(ts: seq<Track>, coverArt: bool, kind: Kind) returns (k: nat)
    requires Distinct(ts) && kind in {Audio, Subtitle} && Speaks(ts, kind)
    ensures IsFirstEnglish(ts, kind, k) && Defaults(Result(ts, coverArt).tracks, kind) == [ts[k]]
  {
    var o := OptionsOf(ts, coverArt);
    k := FirstEnglishIs(ts, kind);
    ExcludedIff(ts, coverArt, ts[k]);
    assert ts[..|ts|] == ts;
    OnlyDefault(ts, o, HasRealVideo(ts, o), kind, k, |ts|);
  }

  /** The streams of a kind that were default in the input. */
  function InputDefaults(ts: seq<Track>, kind: Kind): seq<Track> {
    if ts == [] then []
    else
      var last := ts[|ts| - 1];
      InputDefaults(ts[..|ts| - 1], kind) + if last.kind == kind && last.isDefault then [last] else []
  }

  lemma {:induction false} DefaultsCopied(ts: seq<Track>, o: Options, hasReal: bool)
    requires o.defaultAudio.None?
    requires forall t :: t in ts && t.kind.Audio? ==> t.index !in o.excluded
    ensures Defaults(Outputs(ts, o, hasReal), Audio) == InputDefaults(ts, Audio)
  {
    if ts != [] {
      DefaultsCopied(ts[..|ts| - 1], o, hasReal);
      DefaultsSnoc(ts, o, hasReal, Audio);
      assert ts[|ts| - 1] in ts;
    }
  }

  /** Without English audio all audio stays, with the flags it came with. */
  lemma WithoutEnglishFlagsAreCopied(ts: seq<Track>, coverArt: bool)
    requires Distinct(ts) && !Speaks(ts, Audio)
    ensures Defaults(Result(ts, coverArt).tracks, Audio) == InputDefaults(ts, Audio)
  {
    var o := OptionsOf(ts, coverArt);
    NoneEnglish(ts, Audio);
    forall t | t in ts && t.kind.Audio? ensures t.index !in o.excluded {
      ExcludedIff(ts, coverArt, t);
    }
    DefaultsCopied(ts, o, HasRealVideo(ts, o));
  }

  /** Subtitles that reach the output are English, and the first of them alone is default. */
  lemma SubtitlesAreEnglish(ts: seq<Track>, coverArt: bool)
    requires Distinct(ts)
    ensures forall out :: out in Result(ts, coverArt).tracks && out.source.kind.Subtitle? ==> out.source.language == "eng"
    ensures Carries(Result(ts, coverArt), Subtitle) <==> Speaks(ts, Subtitle)
    ensures Speaks(ts, Subtitle) ==> JustFirstEnglish(ts, Subtitle, Defaults(Result(ts, coverArt).tracks, Subtitle))
  {
    var o := OptionsOf(ts, coverArt);
    OutputsHold(ts, o, HasRealVideo(ts, o));
    forall out | out in Result(ts, coverArt).tracks && out.source.kind.Subtitle?
      ensures out.source.language == "eng" && Speaks(ts, Subtitle)
    {
      ExcludedIff(ts, coverArt, out.source);
      assert out.source.language == "eng" ==> IsEnglish(out.source, Subtitle);
    }
    if Speaks(ts, Subtitle) {
      var k := FirstEnglishIsOnlyDefault(ts, coverArt, Subtitle);
      ExcludedIff(ts, coverArt, ts[k]);
      CarriesKept(ts, o, ts[k]);
    }
  }

  // --- The downmix ---

  lemma {:induction false} FirstSurroundOfAll(ss: seq<StreamInfo>)
    requires ss != [] && forall s :: s in ss ==> s.channels >= 4
    ensures FirstSurround(ss) == Some(ss[0].index)
  {
    if |ss| > 1 {
      assert forall s :: s in ss[..|ss| - 1] ==> s in ss;
      FirstSurroundOfAll(ss[..|ss| - 1]);
    }
    assert ss[|ss| - 1] in ss;
  }

  lemma RetainedAudioHolds(ts: seq<Track>, coverArt: bool)
    requires Distinct(ts)
    ensures forall s :: s in RetainedAudio(ts) ==>
              s.channels > 0 && exists out :: out in Result(ts, coverArt).tracks && out.source.kind.Audio? && InfoOf(out.source) == s
    ensures forall out :: out in Result(ts, coverArt).tracks && out.source.kind.Audio? ==> InfoOf(out.source) in RetainedAudio(ts)
  {
    var o := OptionsOf(ts, coverArt);
    var infos := Infos(ts, Audio);
    OutputsHold(ts, o, HasRealVideo(ts, o));
    InfosHold(ts, Audio);
    RetainedHolds(infos, AudioExclusions(infos));
    forall s | s in RetainedAudio(ts)
      ensures s.channels > 0
      ensures exists out :: out in Result(ts, coverArt).tracks && out.source.kind.Audio? && InfoOf(out.source) == s
    {
      var t :| t in ts && t.kind == Audio && s == InfoOf(t);
      AudioExclusionsIff(ts, coverArt, t);
      assert OutTrack(t, OutputDefault(o, t)) in Result(ts, coverArt).tracks;
    }
    forall out | out in Result(ts, coverArt).tracks && out.source.kind.Audio?
      ensures InfoOf(out.source) in RetainedAudio(ts)
    {
      AudioExclusionsIff(ts, coverArt, out.source);
    }
  }

  lemma AudioExclusionsIff(ts: seq<Track>, coverArt: bool, t: Track)
    requires Distinct(ts) && t in ts && t.kind.Audio?
    ensures t.index in AudioExclusions(Infos(ts, Audio)) <==> t.index in OptionsOf(ts, coverArt).excluded
  {
    NonEnglishIff(ts, Subtitle, t);
  }

  /**
   In terms of the input: there is audio, and whatever of it stays reports at least four channels, or
   none at all, which stands for an unknown layout.
   */
  ghost predicate NeedsDownmix(ts: seq<Track>) {
    && HasKind(ts, Audio)
    && forall t :: t in ts && t.kind.Audio? && (Speaks(ts, Audio) ==> t.language == "eng") ==>
         t.channels == 0 || t.channels >= 4
  }

  /** The audio that stays: all of it, or the English tracks when there are some. */
  lemma AudioStaysIff(ts: seq<Track>, coverArt: bool)
    requires Distinct(ts)
    ensures forall t :: t in ts && t.kind.Audio? && (Speaks(ts, Audio) ==> t.language == "eng") ==>
              exists out :: out in Result(ts, coverArt).tracks && out.source == t
    ensures forall out :: out in Result(ts, coverArt).tracks && out.source.kind.Audio? ==>
              out.source in ts && (Speaks(ts, Audio) ==> out.source.language == "eng")
  {
    var o := OptionsOf(ts, coverArt);
    OutputsHold(ts, o, HasRealVideo(ts, o));
    forall t | t in ts && t.kind.Audio? && (Speaks(ts, Audio) ==> t.language == "eng")
      ensures exists out :: out in Result(ts, coverArt).tracks && out.source == t
    {
      ExcludedIff(ts, coverArt, t);
      assert OutTrack(t, OutputDefault(o, t)) in Result(ts, coverArt).tracks;
    }
    forall out | out in Result(ts, coverArt).tracks && out.source.kind.Audio?
      ensures Speaks(ts, Audio) ==> out.source.language == "eng"
    {
      ExcludedIff(ts, coverArt, out.source);
    }
  }

  /**
   A downmix is added exactly when the file has audio and all that stays of it has at least four
   effective channels; its source is one of the output's tracks.
   */
  lemma DownmixIff(ts: seq<Track>, coverArt: bool)
    requires Distinct(ts)
    ensures Result(ts, coverArt).downmix.Some? <==> NeedsDownmix(ts)
    ensures Result(ts, coverArt).downmix.Some? ==>
              exists t :: t in Result(ts, coverArt).tracks && t.source.kind.Audio?
                       && OptionsOf(ts, coverArt).downmix == Some(t.source.index)
  {
    DownmixFollowsOutput(ts, coverArt);
    AudioStaysIff(ts, coverArt);
    AudioSurvives(ts, coverArt);
  }

  /** The same, read off the output. */
  lemma DownmixFollowsOutput(ts: seq<Track>, coverArt: bool)
    requires Distinct(ts)
    ensures var out := Result(ts, coverArt);
            && (out.downmix.Some? <==>
                  && Carries(out, Audio)
                  && forall t :: t in out.tracks && t.source.kind.Audio? ==> EffectiveChannels(t.source.channels) >= 4)
            && (out.downmix.Some? ==>
                  exists t :: t in out.tracks && t.source.kind.Audio?
                           && OptionsOf(ts, coverArt).downmix == Some(t.source.index))
  {
    var out, retained := Result(ts, coverArt), RetainedAudio(ts);
    RetainedAudioHolds(ts, coverArt);
    if s :| s in retained && StereoCompatible(s) {
      var t :| t in out.tracks && t.source.kind.Audio? && InfoOf(t.source) == s;
      assert EffectiveChannels(t.source.channels) < 4;
    } else if retained != [] {
      assert forall s :: s in retained ==> !StereoCompatible(s) && s.channels >= 4;
      FirstSurroundOfAll(retained);
      assert retained[0] in retained;
      forall t | t in out.tracks && t.source.kind.Audio? ensures EffectiveChannels(t.source.channels) >= 4 {
        assert InfoOf(t.source) in retained;
      }
    }
  }

  /**
   The output has exactly one default audio track, the downmix included, exactly when some
   audio is English, or one input track was default, or none was and a downmix is added. With
   English audio that track is the first English one and the downmix is not default.
   */
  lemma OneDefaultAudioIff(ts: seq<Track>, coverArt: bool)
    requires Distinct(ts)
    ensures DefaultAudioCount(Result(ts, coverArt)) == 1
       <==> (Speaks(ts, Audio) || |InputDefaults(ts, Audio)| == 1
             || (InputDefaults(ts, Audio) == [] && NeedsDownmix(ts)))
    ensures Speaks(ts, Audio) ==>
              && JustFirstEnglish(ts, Audio, Defaults(Result(ts, coverArt).tracks, Audio))
              && Result(ts, coverArt).downmix != Some(true)
  {
    if Speaks(ts, Audio) {
      var k := FirstEnglishIsOnlyDefault(ts, coverArt, Audio);
    } else {
      WithoutEnglishFlagsAreCopied(ts, coverArt);
      DownmixIff(ts, coverArt);
    }
  }

  /** A downmix is default exactly when there is no English audio and no audio was default. */
  lemma DownmixIsDefaultIff(ts: seq<Track>, coverArt: bool)
    requires Distinct(ts)
    ensures Result(ts, coverArt).downmix == Some(true)
       <==> NeedsDownmix(ts) && !Speaks(ts, Audio) && forall t :: t in ts && t.kind.Audio? ==> !t.isDefault
  {
    DownmixIff(ts, coverArt);
    if Speaks(ts, Audio) {
      var k := FirstEnglishIsOnlyDefault(ts, coverArt, Audio);
    } else {
      WithoutEnglishFlagsAreCopied(ts, coverArt);
      InputDefaultsHold(ts, Audio);
    }
  }

  lemma {:induction false} InputDefaultsHold(ts: seq<Track>, kind: Kind)
    ensures InputDefaults(ts, kind) == [] <==> forall t :: t in ts && t.kind == kind ==> !t.isDefault
  {
    if ts != [] {
      InputDefaultsHold(ts[..|ts| - 1], kind);
      assert ts == ts[..|ts| - 1] + [ts[|ts| - 1]];
    }
  }
}
