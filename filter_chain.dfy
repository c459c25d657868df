/** The filter-chain compiler: the `preprocessing` section of the configuration becomes
    one comma-separated FFmpeg filter expression, stages in the fixed order noise
    reduction, loudness normalisation, dynamic-range compression, equaliser bands. */
module FilterChain {
  import opened Text
  import opened AudioConfig

  /** The `afftdn` noise-reduction amount for each known strength name. */
  const StrengthLevels: map<string, string> := map["low" := "0.2", "medium" := "0.4", "high" := "0.6"]

  /** The amount for a strength name; the lookup is total, with the medium amount for
      any name it does not know. */
  function NoiseAmount(strength: string): (amount: string)
    ensures amount in {"0.2", "0.4", "0.6"}
    ensures amount == "0.2" <==> strength == "low"
    ensures amount == "0.6" <==> strength == "high"
    ensures amount == "0.4" <==> strength != "low" && strength != "high"
  {
    if strength in StrengthLevels then StrengthLevels[strength] else "0.4"
  }

  function DenoiseStage(n: NoiseReduction): string {
    "afftdn=nr=" + NoiseAmount(n.strength) + ":nf=-25"
  }

  /** Single-pass EBU R128 loudness normalisation with a loudness range of 7 LU. */
  function LoudnormStage(n: Normalization): string {
    "loudnorm=I=" + n.targetLevel + ":TP=" + n.truePeak + ":LRA=7"
  }

  function CompressorStage(c: DynamicCompression): string {
    "acompressor=threshold=" + c.threshold + "dB:ratio=" + c.ratio
      + ":attack=" + c.attack + ":release=" + c.release
  }

  /** One peaking-equaliser band: centre frequency and width in Hz, gain in dB. */
  function Band(frequency: string, width: string, gain: string): string {
    "equalizer=f=" + frequency + ":width_type=h:width=" + width + ":g=" + gain
  }

  /** Cut the rumble, boost the voice body and clarity, a little presence, cut sibilance. */
  const SpeechBands: seq<string> := [
    Band("100", "200", "-3"),
    Band("300", "200", "2"),
    Band("1500", "1000", "3"),
    Band("4000", "1000", "1"),
    Band("8000", "2000", "-2")]

  /** Slight bass boost, neutral low mids, slight mid boost, treble boost. */
  const MusicBands: seq<string> := [
    Band("60", "100", "1"),
    Band("300", "200", "0"),
    Band("1500", "1000", "1"),
    Band("6000", "2000", "2")]

  /** The bands of a preset: five for speech, four for music, none (and no error) otherwise. */
  function EqBands(preset: string): (bands: seq<string>)
    ensures |bands| == if preset == "speech" then 5 else if preset == "music" then 4 else 0
  {
    if preset == "speech" then SpeechBands
    else if preset == "music" then MusicBands
    else []
  }

  /** The stages in the order the compiler emits them, each only when its section is enabled. */
  function Stages(p: Preprocessing): seq<string> {
    (if p.noiseReduction.enabled then [DenoiseStage(p.noiseReduction)] else [])
    + (if p.normalization.enabled then [LoudnormStage(p.normalization)] else [])
    + (if p.compression.enabled then [CompressorStage(p.compression)] else [])
    + (if p.eq.enabled then EqBands(p.eq.preset) else [])
  }

  /** The filter expression handed to FFmpeg's `-filter_complex`. */
  function Chain(p: Preprocessing): string {
    Join(Stages(p), ',')
  }

  /** Builds the chain by appending one stage at a time to a list and joining it. */
  method BuildFilterChain(p: Preprocessing) returns (chain: string)
    ensures chain == Chain(p)
  {
    var filters: seq<string> := [];
    if p.noiseReduction.enabled {
      var amount := if p.noiseReduction.strength in StrengthLevels
        then StrengthLevels[p.noiseReduction.strength] else "0.4";
      filters := filters + ["afftdn=nr=" + amount + ":nf=-25"];
    }
    assert filters == if p.noiseReduction.enabled then [DenoiseStage(p.noiseReduction)] else [];
    if p.normalization.enabled {
      filters := filters + ["loudnorm=I=" + p.normalization.targetLevel
        + ":TP=" + p.normalization.truePeak + ":LRA=7"];
    }
    if p.compression.enabled {
      var c := p.compression;
      filters := filters + ["acompressor=threshold=" + c.threshold + "dB:ratio=" + c.ratio
        + ":attack=" + c.attack + ":release=" + c.release];
    }
    ghost var beforeEq := filters;
    assert beforeEq + [] == Stages(p.(eq := p.eq.(enabled := false)));
    if p.eq.enabled {
      if p.eq.preset == "speech" {
        filters := filters + SpeechBands;
      } else if p.eq.preset == "music" {
        filters := filters + MusicBands;
      }
    }
    assert filters == beforeEq + (if p.eq.enabled then EqBands(p.eq.preset) else []);
    assert filters == Stages(p);
    if |filters| > 0 {
      chain := Join(filters, ',');
    } else {
      chain := "";
    }
  }

  /** Some stage is emitted: a section is enabled, and for the equaliser its preset is known. */
  predicate EmitsStage(p: Preprocessing) {
    || p.noiseReduction.enabled
    || p.normalization.enabled
    || p.compression.enabled
    || (p.eq.enabled && (p.eq.preset == "speech" || p.eq.preset == "music"))
  }

  /** The configured values that are copied into the chain hold no comma. */
  predicate CommaFreeValues(p: Preprocessing) {
    && ',' !in p.normalization.targetLevel && ',' !in p.normalization.truePeak
    && ',' !in p.compression.threshold && ',' !in p.compression.ratio
    && ',' !in p.compression.attack && ',' !in p.compression.release
  }

  /** Position of a stage in the fixed order, read off the FFmpeg filter name it starts
      with: 0 denoise, 1 loudnorm, 2 compressor, 3 equaliser band, 4 anything else. */
  function StageRank(stage: string): nat {
    if StartsWith(stage, "afftdn=") then 0
    else if StartsWith(stage, "loudnorm=") then 1
    else if StartsWith(stage, "acompressor=") then 2
    else if StartsWith(stage, "equalizer=") then 3
    else 4
  }

  /** How many of `stages` have rank `k`. */
  function RankCount(stages: seq<string>, k: nat): nat {
    if stages == [] then 0
    else (if StageRank(stages[0]) == k then 1 else 0) + RankCount(stages[1..], k)
  }

  lemma {:induction false} RankCountAppend(a: seq<string>, b: seq<string>, k: nat)
    ensures RankCount(a + b, k) == RankCount(a, k) + RankCount(b, k)
    decreases |a|
  {
    if a == [] {
      assert a + b == b;
    } else {
      assert (a + b)[0] == a[0];
      assert (a + b)[1..] == a[1..] + b;
      RankCountAppend(a[1..], b, k);
    }
  }

  lemma {:induction false} RankCountUniform(stages: seq<string>, r: nat, k: nat)
    requires forall i :: 0 <= i < |stages| ==> StageRank(stages[i]) == r
    ensures RankCount(stages, k) == if r == k then |stages| else 0
    decreases |stages|
  {
    if stages != [] {
      RankCountUniform(stages[1..], r, k);
    }
  }

  /** A band is an equaliser stage, and holds no comma when its three numbers hold none. */
  lemma BandShape(frequency: string, width: string, gain: string)
    requires ',' !in frequency && ',' !in width && ',' !in gain && gain != ""
    ensures var b := Band(frequency, width, gain);
      StageRank(b) == 3 && b[0] == 'e' && ',' !in b && b[|b| - 1] == gain[|gain| - 1]
  {
    var b := Band(frequency, width, gain);
    var head := "equalizer=f=";
    assert StartsWith(head, "equalizer=");
    StartsWithAppend(head, frequency + ":width_type=h:width=" + width + ":g=" + gain, "equalizer=");
    assert b == head + (frequency + ":width_type=h:width=" + width + ":g=" + gain);
    assert b[0] == 'e';
    assert ',' !in head && ',' !in ":width_type=h:width=" && ',' !in ":g=";
  }

  /** What the compiler needs of an equaliser stage. */
  predicate WellFormedBand(b: string) {
    StageRank(b) == 3 && b != "" && b[0] == 'e' && ',' !in b && b[|b| - 1] != ','
  }

  lemma WellFormedBandOf(frequency: string, width: string, gain: string)
    requires ',' !in frequency && ',' !in width && ',' !in gain && gain != "" && gain[|gain| - 1] != ','
    ensures WellFormedBand(Band(frequency, width, gain))
  {
    BandShape(frequency, width, gain);
  }

  /** Every band of every preset is a non-empty, comma-free equaliser stage that does not
      end with a comma. */
  lemma PresetBands(preset: string)
    ensures forall i :: 0 <= i < |EqBands(preset)| ==> WellFormedBand(EqBands(preset)[i])
  {
    var bands := EqBands(preset);
    forall i | 0 <= i < |bands|
      ensures WellFormedBand(bands[i])
    {
      if preset == "speech" {
        if i == 0 { WellFormedBandOf("100", "200", "-3"); }
        else if i == 1 { WellFormedBandOf("300", "200", "2"); }
        else if i == 2 { WellFormedBandOf("1500", "1000", "3"); }
        else if i == 3 { WellFormedBandOf("4000", "1000", "1"); }
        else { WellFormedBandOf("8000", "2000", "-2"); }
      } else {
        if i == 0 { WellFormedBandOf("60", "100", "1"); }
        else if i == 1 { WellFormedBandOf("300", "200", "0"); }
        else if i == 2 { WellFormedBandOf("1500", "1000", "1"); }
        else { WellFormedBandOf("6000", "2000", "2"); }
      }
    }
  }

  lemma DenoiseShape(n: NoiseReduction)
    ensures var d := DenoiseStage(n);
      StageRank(d) == 0 && ',' !in d && d[0] == 'a' && d[|d| - 1] == '5'
      && EndsWith(d, ":nf=-25")
  {
    var amount := NoiseAmount(n.strength);
    var d := DenoiseStage(n);
    assert StartsWith("afftdn=nr=", "afftdn=");
    StartsWithAppend("afftdn=nr=", amount + ":nf=-25", "afftdn=");
    assert d == "afftdn=nr=" + amount + ":nf=-25";
    assert ',' !in "afftdn=nr=" && ',' !in amount && ',' !in ":nf=-25";
    EndsWithAppend("afftdn=nr=" + amount, ":nf=-25");
  }

  lemma LoudnormShape(n: Normalization)
    ensures var l := LoudnormStage(n);
      StageRank(l) == 1 && l[0] == 'l' && l[|l| - 1] == '7' && EndsWith(l, ":LRA=7")
      && (',' !in n.targetLevel && ',' !in n.truePeak ==> ',' !in l)
  {
    var l := LoudnormStage(n);
    var tail := n.targetLevel + ":TP=" + n.truePeak + ":LRA=7";
    assert StartsWith("loudnorm=I=", "loudnorm=");
    StartsWithAppend("loudnorm=I=", tail, "loudnorm=");
    assert l == "loudnorm=I=" + tail;
    assert l[0] == 'l';
    assert ',' !in "loudnorm=I=" && ',' !in ":TP=" && ',' !in ":LRA=7";
    EndsWithAppend("loudnorm=I=" + n.targetLevel + ":TP=" + n.truePeak, ":LRA=7");
  }

  lemma CompressorShape(c: DynamicCompression)
    ensures var cs := CompressorStage(c); var r := c.release;
      StageRank(cs) == 2 && cs[0] == 'a'
      && cs[|cs| - 1] == (if r == "" then '=' else r[|r| - 1])
      && EndsWith(cs, ":release=" + r)
      && (',' !in c.threshold && ',' !in c.ratio && ',' !in c.attack && ',' !in r ==> ',' !in cs)
  {
    var head := "acompressor=threshold=" + c.threshold + "dB:ratio=" + c.ratio + ":attack=" + c.attack;
    CompressorRank(c, head);
    LastCharOfAppend(head, ":release=" + c.release);
    CompressorCommas(c);
  }

  lemma CompressorCommas(c: DynamicCompression)
    ensures ',' !in c.threshold && ',' !in c.ratio && ',' !in c.attack && ',' !in c.release
      ==> ',' !in CompressorStage(c)
  {
    assert ',' !in "acompressor=threshold=" && ',' !in "dB:ratio=" && ',' !in ":attack=" && ',' !in ":release=";
  }

  lemma CompressorRank(c: DynamicCompression, head: string)
    requires head == "acompressor=threshold=" + c.threshold + "dB:ratio=" + c.ratio + ":attack=" + c.attack
    ensures CompressorStage(c) == head + (":release=" + c.release)
    ensures StageRank(CompressorStage(c)) == 2 && CompressorStage(c)[0] == 'a'
  {
    var tail := c.threshold + "dB:ratio=" + c.ratio + ":attack=" + c.attack + ":release=" + c.release;
    assert StartsWith("acompressor=threshold=", "acompressor=");
    StartsWithAppend("acompressor=threshold=", tail, "acompressor=");
    assert CompressorStage(c) == "acompressor=threshold=" + tail;
    AcompressorRank(CompressorStage(c));
  }

  lemma AcompressorRank(stage: string)
    requires StartsWith(stage, "acompressor=")
    ensures StageRank(stage) == 2 && stage[0] == 'a'
  {
    assert stage[..12] == "acompressor=";
    assert stage[0] == 'a' && stage[1] == 'c';
    assert !StartsWith(stage, "afftdn=") by {
      assert stage[..7][1] == 'c';
    }
    assert !StartsWith(stage, "loudnorm=") by {
      assert stage[..9][0] == 'a';
    }
  }

  /** How many stages come before the equaliser bands. */
  function EqStart(p: Preprocessing): nat {
    (if p.noiseReduction.enabled then 1 else 0)
    + (if p.normalization.enabled then 1 else 0)
    + (if p.compression.enabled then 1 else 0)
  }

  /** Which stage sits at position `i` of the chain. */
  lemma StageAt(p: Preprocessing, i: nat)
    requires i < |Stages(p)|
    ensures |Stages(p)| == EqStart(p) + if p.eq.enabled then |EqBands(p.eq.preset)| else 0
    ensures var n0 := if p.noiseReduction.enabled then 1 else 0;
      var n1 := n0 + if p.normalization.enabled then 1 else 0;
      Stages(p)[i] ==
        if i < n0 then DenoiseStage(p.noiseReduction)
        else if i < n1 then LoudnormStage(p.normalization)
        else if i < EqStart(p) then CompressorStage(p.compression)
        else EqBands(p.eq.preset)[i - EqStart(p)]
  {
  }

  /** No stage is empty. */
  lemma StagesNonEmpty(p: Preprocessing)
    ensures forall i :: 0 <= i < |Stages(p)| ==> Stages(p)[i] != ""
  {
    forall i | 0 <= i < |Stages(p)|
      ensures Stages(p)[i] != ""
    {
      StageAt(p, i);
      if i >= EqStart(p) {
        PresetBands(p.eq.preset);
      }
    }
  }

  /** A stage holds a comma only where a configured value does. */
  lemma StagesCommaFree(p: Preprocessing)
    requires CommaFreeValues(p)
    ensures forall i :: 0 <= i < |Stages(p)| ==> ',' !in Stages(p)[i]
  {
    forall i | 0 <= i < |Stages(p)|
      ensures ',' !in Stages(p)[i]
    {
      StageAt(p, i);
      if i >= EqStart(p) {
        PresetBands(p.eq.preset);
      } else {
        DenoiseShape(p.noiseReduction);
        LoudnormShape(p.normalization);
        CompressorShape(p.compression);
      }
    }
  }

  /** The chain is empty exactly when no stage is emitted, for instance when all four
      sections are disabled. */
  lemma ChainEmptyIff(p: Preprocessing)
    ensures Chain(p) == "" <==> !EmitsStage(p)
  {
    StagesNonEmpty(p);
    JoinEnds(Stages(p), ',');
  }

  /** The chain does not start with a comma. */
  lemma ChainStartsWithStage(p: Preprocessing)
    requires Chain(p) != ""
    ensures Chain(p)[0] != ','
  {
    StagesNonEmpty(p);
    JoinEnds(Stages(p), ',');
    StageAt(p, 0);
    if EqStart(p) == 0 {
      PresetBands(p.eq.preset);
    } else {
      DenoiseShape(p.noiseReduction);
      LoudnormShape(p.normalization);
      CompressorShape(p.compression);
    }
  }

  /** The chain does not end with a comma, unless the configured compressor release value
      itself ends with one. */
  lemma ChainEndsWithStage(p: Preprocessing)
    requires Chain(p) != ""
    requires !EndsWith(p.compression.release, ",")
    ensures Chain(p)[|Chain(p)| - 1] != ','
  {
    StagesNonEmpty(p);
    LastStageEnd(p);
    JoinLastChar(Stages(p));
  }

  lemma JoinLastChar(stages: seq<string>)
    requires stages != []
    requires forall i :: 0 <= i < |stages| ==> stages[i] != ""
    requires var last := stages[|stages| - 1]; last[|last| - 1] != ','
    ensures var j := Join(stages, ','); j != "" && j[|j| - 1] != ','
  {
    JoinEnds(stages, ',');
  }

  lemma LastStageEnd(p: Preprocessing)
    requires |Stages(p)| > 0
    requires !EndsWith(p.compression.release, ",")
    ensures var last := Stages(p)[|Stages(p)| - 1]; last != "" && last[|last| - 1] != ','
  {
    var n := |Stages(p)| - 1;
    StageAt(p, n);
    if n >= EqStart(p) {
      PresetBands(p.eq.preset);
    } else if n == EqStart(p) - 1 && p.compression.enabled {
      CompressorLastChar(p.compression);
    } else if p.normalization.enabled {
      LoudnormShape(p.normalization);
    } else {
      DenoiseShape(p.noiseReduction);
    }
  }

  lemma CompressorLastChar(c: DynamicCompression)
    requires !EndsWith(c.release, ",")
    ensures var cs := CompressorStage(c); cs != "" && cs[|cs| - 1] != ','
  {
    CompressorShape(c);
    var r := c.release;
    if r != "" {
      assert r[|r| - 1..] == [r[|r| - 1]];
    }
  }

  /** When no configured value holds a comma, splitting the chain at its commas gives back
      exactly the emitted stages: the chain is nothing but the stages, comma-separated. */
  lemma ChainSplitsIntoStages(p: Preprocessing)
    requires CommaFreeValues(p) && EmitsStage(p)
    ensures Split(Chain(p), ',') == Stages(p)
  {
    StagesNonEmpty(p);
    StagesCommaFree(p);
    SplitJoin(Stages(p), ',');
  }

  /** The rank of the stage at each position: 0, 1, 2 for the stages before the bands,
      in that order, and 3 for every band. */
  lemma RankAt(p: Preprocessing, i: nat)
    requires i < |Stages(p)|
    ensures var n0 := if p.noiseReduction.enabled then 1 else 0;
      var n1 := n0 + if p.normalization.enabled then 1 else 0;
      StageRank(Stages(p)[i]) == if i < n0 then 0 else if i < n1 then 1 else if i < EqStart(p) then 2 else 3
  {
    StageAt(p, i);
    DenoiseShape(p.noiseReduction);
    LoudnormShape(p.normalization);
    CompressorShape(p.compression);
    PresetBands(p.eq.preset);
  }

  /** Stages appear in the fixed order: rank never decreases along the chain, and only
      equaliser bands repeat a rank. */
  lemma StagesInOrder(p: Preprocessing)
    ensures forall i, j :: 0 <= i < j < |Stages(p)| ==>
      StageRank(Stages(p)[i]) < StageRank(Stages(p)[j]) || StageRank(Stages(p)[i]) == StageRank(Stages(p)[j]) == 3
  {
    forall i, j | 0 <= i < j < |Stages(p)|
      ensures StageRank(Stages(p)[i]) < StageRank(Stages(p)[j]) || StageRank(Stages(p)[i]) == StageRank(Stages(p)[j]) == 3
    {
      RankAt(p, i);
      RankAt(p, j);
    }
  }

  /** Each of the first three stages appears once when its section is enabled and not at
      all otherwise; equaliser bands appear as many times as the preset has bands; and no
      other kind of stage appears. */
  lemma StageCounts(p: Preprocessing, k: nat)
    ensures RankCount(Stages(p), k) ==
      if k == 0 then (if p.noiseReduction.enabled then 1 else 0)
      else if k == 1 then (if p.normalization.enabled then 1 else 0)
      else if k == 2 then (if p.compression.enabled then 1 else 0)
      else if k == 3 then (if p.eq.enabled then |EqBands(p.eq.preset)| else 0)
      else 0
  {
    var head := Stages(p.(eq := p.eq.(enabled := false)));
    var bands := if p.eq.enabled then EqBands(p.eq.preset) else [];
    assert Stages(p) == head + bands;
    PresetBands(p.eq.preset);
    RankCountAppend(head, bands, k);
    RankCountUniform(bands, 3, k);
    HeadCounts(p.(eq := p.eq.(enabled := false)), k);
  }

  /** The counts for the stages before the bands. */
  lemma HeadCounts(p: Preprocessing, k: nat)
    requires !p.eq.enabled
    ensures RankCount(Stages(p), k) ==
      if k == 0 then (if p.noiseReduction.enabled then 1 else 0)
      else if k == 1 then (if p.normalization.enabled then 1 else 0)
      else if k == 2 then (if p.compression.enabled then 1 else 0)
      else 0
  {
    DenoiseShape(p.noiseReduction);
    LoudnormShape(p.normalization);
    CompressorShape(p.compression);
    var a := if p.noiseReduction.enabled then [DenoiseStage(p.noiseReduction)] else [];
    var b := if p.normalization.enabled then [LoudnormStage(p.normalization)] else [];
    var c := if p.compression.enabled then [CompressorStage(p.compression)] else [];
    assert Stages(p) == a + b + c;
    RankCountAppend(a + b, c, k);
    RankCountAppend(a, b, k);
  }

  /** What each emitted stage says: the denoise stage carries the strength's amount and the
      fixed -25 dB noise floor, loudnorm and the compressor carry the configured values
      verbatim, and every band belongs to the configured preset. */
  lemma StageContents(p: Preprocessing)
    ensures forall i :: 0 <= i < |Stages(p)| && StageRank(Stages(p)[i]) == 0 ==>
      Stages(p)[i] == "afftdn=nr=" + NoiseAmount(p.noiseReduction.strength) + ":nf=-25"
    ensures forall i :: 0 <= i < |Stages(p)| && StageRank(Stages(p)[i]) == 1 ==>
      Stages(p)[i] == "loudnorm=I=" + p.normalization.targetLevel + ":TP=" + p.normalization.truePeak + ":LRA=7"
    ensures forall i :: 0 <= i < |Stages(p)| && StageRank(Stages(p)[i]) == 2 ==>
      Stages(p)[i] == "acompressor=threshold=" + p.compression.threshold + "dB:ratio=" + p.compression.ratio
        + ":attack=" + p.compression.attack + ":release=" + p.compression.release
    ensures forall i :: 0 <= i < |Stages(p)| && StageRank(Stages(p)[i]) == 3 ==>
      Stages(p)[i] in EqBands(p.eq.preset)
  {
    forall i | 0 <= i < |Stages(p)|
      ensures StageRank(Stages(p)[i]) == 0 ==> Stages(p)[i] == DenoiseStage(p.noiseReduction)
      ensures StageRank(Stages(p)[i]) == 1 ==> Stages(p)[i] == LoudnormStage(p.normalization)
      ensures StageRank(Stages(p)[i]) == 2 ==> Stages(p)[i] == CompressorStage(p.compression)
      ensures StageRank(Stages(p)[i]) == 3 ==> Stages(p)[i] in EqBands(p.eq.preset)
    {
      RankAt(p, i);
      StageAt(p, i);
    }
  }

  /** A strength name the lookup does not know yields the same chain as `medium`. */
  lemma UnknownStrengthActsAsMedium(p: Preprocessing, strength: string)
    requires strength !in StrengthLevels
    ensures Chain(p.(noiseReduction := p.noiseReduction.(strength := strength)))
         == Chain(p.(noiseReduction := p.noiseReduction.(strength := "medium")))
  {
  }

  /** The stages of the default configuration: medium noise reduction, then loudnorm to
      -16 LUFS with a -1.5 dB true-peak ceiling; so the default chain is these two joined
      by a comma. */
  lemma DefaultStages()
    ensures Stages(DefaultConfig.preprocessing) == ["afftdn=nr=0.4:nf=-25", "loudnorm=I=-16:TP=-1.5:LRA=7"]
  {
    var p := DefaultConfig.preprocessing;
    assert NoiseAmount(p.noiseReduction.strength) == "0.4";
    assert DenoiseStage(p.noiseReduction) == "afftdn=nr=0.4:nf=-25";
    assert LoudnormStage(p.normalization) == "loudnorm=I=-16:TP=-1.5:LRA=7";
  }
}
