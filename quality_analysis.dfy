/** The quality classifier: five threshold checks in a fixed order, each of
    which may report one phrase and raise the message type, followed by the
    composition of the feedback sentence. The message id and the clock are
    parameters. */
module QualityAnalysis {
  import opened Types
  import opened MessageText

  /** The configuration used when the caller overrides nothing. */
  const DefaultAnalyzerConfig: AnalyzerConfig := AnalyzerConfig(
    sharpnessThreshold := 60,
    brightnessLowerThreshold := 30,
    brightnessUpperThreshold := 70,
    noiseThreshold := 50,
    contrastThreshold := 40,
    saturationLowerThreshold := 30,
    saturationUpperThreshold := 70,
    feedbackDuration := 2000,
    analysisDelay := 500)

  // ---------------------------------------------------------------------------
  // Specification: what each check reports and how severe it is

  function SharpnessIssues(q: ImageQuality, c: AnalyzerConfig): seq<string>
  {
    if q.sharpness < c.sharpnessThreshold then [Blurry] else []
  }

  function BrightnessIssues(q: ImageQuality, c: AnalyzerConfig): seq<string>
  {
    if q.brightness < c.brightnessLowerThreshold then [Dark]
    else if q.brightness > c.brightnessUpperThreshold then [Bright]
    else []
  }

  function NoiseIssues(q: ImageQuality, c: AnalyzerConfig): seq<string>
  {
    if q.noise > c.noiseThreshold then [Noisy] else []
  }

  function ContrastIssues(q: ImageQuality, c: AnalyzerConfig): seq<string>
  {
    if q.contrast < c.contrastThreshold then [LowContrast] else []
  }

  function SaturationIssues(q: ImageQuality, c: AnalyzerConfig): seq<string>
  {
    if q.saturation < c.saturationLowerThreshold then [UnderSaturated]
    else if q.saturation > c.saturationUpperThreshold then [OverSaturated]
    else []
  }

  /** The issue phrases of a sample, in check order. */
  function Issues(q: ImageQuality, c: AnalyzerConfig): (r: seq<string>)
    ensures |r| <= 5
    ensures forall p :: p in r ==> IsPhrase(p)
  {
    SharpnessIssues(q, c) + BrightnessIssues(q, c) + NoiseIssues(q, c)
    + ContrastIssues(q, c) + SaturationIssues(q, c)
  }

  /** The severity a check contributes: its level when it fires, success otherwise. */
  function Contribution(issues: seq<string>, level: MessageType): MessageType
  {
    if issues != [] then level else Success
  }

  /** The message type as the join of the five contributions in the lattice
      success < info < warning < error. */
  function Severity(q: ImageQuality, c: AnalyzerConfig): (r: MessageType)
    ensures r == Error <==> q.sharpness < c.sharpnessThreshold
    ensures r == Warning <==> SharpnessIssues(q, c) == []
                              && BrightnessIssues(q, c) + NoiseIssues(q, c) + ContrastIssues(q, c) != []
    ensures r == Info <==> Issues(q, c) == SaturationIssues(q, c) != []
    ensures r == Success <==> Issues(q, c) == []
  {
    Worst(Worst(Worst(Worst(
      Contribution(SharpnessIssues(q, c), Error),
      Contribution(BrightnessIssues(q, c), Warning)),
      Contribution(NoiseIssues(q, c), Warning)),
      Contribution(ContrastIssues(q, c), Warning)),
      Contribution(SaturationIssues(q, c), Info))
  }

  /** The feedback message for a sample, given the fresh id and the current time. */
  function Feedback(image: MockImage, config: AnalyzerConfig, id: string, now: int): FeedbackMessage
  {
    FeedbackMessage(
      id := id,
      message := ComposeText(Issues(image.quality, config)),
      kind := Severity(image.quality, config),
      timestamp := now,
      duration := config.feedbackDuration)
  }

  // ---------------------------------------------------------------------------
  // The classifier as the program runs it

  /** The checks: pushes onto a local issue list and raises the message type
      check by check; a later check replaces the type only while it is still
      success. */
  method CollectIssues(quality: ImageQuality, config: AnalyzerConfig)
    returns (issues: seq<string>, messageType: MessageType)
    ensures issues == Issues(quality, config)
    ensures messageType == Severity(quality, config)
  {
    issues := [];
    messageType := Success;

    if quality.sharpness < config.sharpnessThreshold {
      issues := issues + [Blurry];
      messageType := Error;
    }
    assert issues == SharpnessIssues(quality, config);

    if quality.brightness < config.brightnessLowerThreshold {
      issues := issues + [Dark];
      messageType := if messageType == Success then Warning else messageType;
    } else if quality.brightness > config.brightnessUpperThreshold {
      issues := issues + [Bright];
      messageType := if messageType == Success then Warning else messageType;
    }
    assert messageType == Worst(Contribution(SharpnessIssues(quality, config), Error),
                                Contribution(BrightnessIssues(quality, config), Warning));
    assert issues == SharpnessIssues(quality, config) + BrightnessIssues(quality, config);
    ghost var before := issues;

    if quality.noise > config.noiseThreshold {
      issues := issues + [Noisy];
      messageType := if messageType == Success then Warning else messageType;
    }
    assert issues == before + NoiseIssues(quality, config);
    assert messageType == Worst(Worst(
      Contribution(SharpnessIssues(quality, config), Error),
      Contribution(BrightnessIssues(quality, config), Warning)),
      Contribution(NoiseIssues(quality, config), Warning));
    before := issues;

    if quality.contrast < config.contrastThreshold {
      issues := issues + [LowContrast];
      messageType := if messageType == Success then Warning else messageType;
    }
    assert issues == before + ContrastIssues(quality, config);
    assert messageType == Worst(Worst(Worst(
      Contribution(SharpnessIssues(quality, config), Error),
      Contribution(BrightnessIssues(quality, config), Warning)),
      Contribution(NoiseIssues(quality, config), Warning)),
      Contribution(ContrastIssues(quality, config), Warning));
    assert messageType != Info;
    before := issues;

    if quality.saturation < config.saturationLowerThreshold {
      issues := issues + [UnderSaturated];
      messageType := if messageType == Success then Info else messageType;
    } else if quality.saturation > config.saturationUpperThreshold {
      issues := issues + [OverSaturated];
      messageType := if messageType == Success then Info else messageType;
    }
    assert issues == before + SaturationIssues(quality, config);
    assert messageType == Worst(Worst(Worst(Worst(
      Contribution(SharpnessIssues(quality, config), Error),
      Contribution(BrightnessIssues(quality, config), Warning)),
      Contribution(NoiseIssues(quality, config), Warning)),
      Contribution(ContrastIssues(quality, config), Warning)),
      Contribution(SaturationIssues(quality, config), Info));
  }

  /** The sentence: pops the last issue and joins the rest with ", ". */
  method ComposeMessage(issues: seq<string>) returns (message: string)
    ensures message == ComposeText(issues)
  {
    var rest := issues;
    if |rest| == 0 {
      message := GoodQuality;
    } else if |rest| == 1 {
      message := Lead + rest[0];
    } else {
      var lastIssue := rest[|rest| - 1];
      rest := rest[..|rest| - 1];
      message := Lead + Join(rest, Comma) + And + lastIssue;
      Regroup(Lead, Join(rest, Comma), And, lastIssue);
    }
  }

  /** The whole analysis of one sample. */
  method AnalyzeImageQuality(image: MockImage, config: AnalyzerConfig, id: string, now: int)
    returns (feedback: FeedbackMessage)
    ensures feedback == Feedback(image, config, id, now)
  {
    var issues, messageType := CollectIssues(image.quality, config);
    var message := ComposeMessage(issues);
    if |issues| == 0 {
      messageType := Success;
    }
    feedback := FeedbackMessage(id, message, messageType, now, config.feedbackDuration);
  }

  // ---------------------------------------------------------------------------
  // Properties of the classification

  /** Each phrase is reported exactly when its strict comparison holds. */
  lemma PhraseIffCheck(q: ImageQuality, c: AnalyzerConfig)
    ensures Blurry in Issues(q, c) <==> q.sharpness < c.sharpnessThreshold
    ensures Dark in Issues(q, c) <==> q.brightness < c.brightnessLowerThreshold
    ensures Bright in Issues(q, c) <==>
              !(q.brightness < c.brightnessLowerThreshold) && q.brightness > c.brightnessUpperThreshold
    ensures Noisy in Issues(q, c) <==> q.noise > c.noiseThreshold
    ensures LowContrast in Issues(q, c) <==> q.contrast < c.contrastThreshold
    ensures UnderSaturated in Issues(q, c) <==> q.saturation < c.saturationLowerThreshold
    ensures OverSaturated in Issues(q, c) <==>
              !(q.saturation < c.saturationLowerThreshold) && q.saturation > c.saturationUpperThreshold
  {
    InIssues(q, c, Blurry);
    InIssues(q, c, Dark);
    InIssues(q, c, Bright);
    InIssues(q, c, Noisy);
    InIssues(q, c, LowContrast);
    InIssues(q, c, UnderSaturated);
    InIssues(q, c, OverSaturated);
  }

  /** A phrase is an issue exactly when one of the five checks reports it. */
  lemma InIssues(q: ImageQuality, c: AnalyzerConfig, p: string)
    ensures p in Issues(q, c) <==>
              p in SharpnessIssues(q, c) || p in BrightnessIssues(q, c) || p in NoiseIssues(q, c)
              || p in ContrastIssues(q, c) || p in SaturationIssues(q, c)
  {
  }

  /** Every phrase of s comes strictly before every later one in check order. */
  predicate InCheckOrder(s: seq<string>)
  {
    forall i, j :: 0 <= i < j < |s| ==> PhraseRank(s[i]) < PhraseRank(s[j])
  }

  /** All phrases of s have a rank in [lo, hi]. */
  predicate RanksWithin(s: seq<string>, lo: nat, hi: nat)
  {
    forall i :: 0 <= i < |s| ==> lo <= PhraseRank(s[i]) <= hi
  }

  lemma ConcatInCheckOrder(a: seq<string>, b: seq<string>, k: nat, hi: nat)
    requires InCheckOrder(a) && InCheckOrder(b)
    requires RanksWithin(a, 0, k) && RanksWithin(b, k + 1, hi) && k <= hi
    ensures InCheckOrder(a + b) && RanksWithin(a + b, 0, hi)
  {
    forall i, j | 0 <= i < j < |a + b|
      ensures PhraseRank((a + b)[i]) < PhraseRank((a + b)[j])
    {
      if j < |a| {
      } else if i >= |a| {
        assert (a + b)[i] == b[i - |a|] && (a + b)[j] == b[j - |a|];
      }
    }
  }

  lemma CheckRanks(q: ImageQuality, c: AnalyzerConfig)
    ensures InCheckOrder(SharpnessIssues(q, c)) && RanksWithin(SharpnessIssues(q, c), 0, 0)
    ensures InCheckOrder(BrightnessIssues(q, c)) && RanksWithin(BrightnessIssues(q, c), 1, 2)
    ensures InCheckOrder(NoiseIssues(q, c)) && RanksWithin(NoiseIssues(q, c), 3, 3)
    ensures InCheckOrder(ContrastIssues(q, c)) && RanksWithin(ContrastIssues(q, c), 4, 4)
    ensures InCheckOrder(SaturationIssues(q, c)) && RanksWithin(SaturationIssues(q, c), 5, 6)
  {
    assert PhraseRank(Blurry) == 0 && PhraseRank(Dark) == 1 && PhraseRank(Bright) == 2;
    assert PhraseRank(Noisy) == 3 && PhraseRank(LowContrast) == 4;
    assert PhraseRank(UnderSaturated) == 5 && PhraseRank(OverSaturated) == 6;
  }

  /** Phrases come out in check order, so each appears at most once. */
  lemma IssuesOrdered(q: ImageQuality, c: AnalyzerConfig)
    ensures InCheckOrder(Issues(q, c))
  {
    var s, b, n, k, t := SharpnessIssues(q, c), BrightnessIssues(q, c), NoiseIssues(q, c),
                         ContrastIssues(q, c), SaturationIssues(q, c);
    CheckRanks(q, c);
    ConcatInCheckOrder(s, b, 0, 2);
    ConcatInCheckOrder(s + b, n, 2, 3);
    ConcatInCheckOrder(s + b + n, k, 3, 4);
    ConcatInCheckOrder(s + b + n + k, t, 4, 6);
  }

  /** Brightness and saturation each report at most one of their two phrases. */
  lemma OnePhrasePerBand(q: ImageQuality, c: AnalyzerConfig)
    ensures !(Dark in Issues(q, c) && Bright in Issues(q, c))
    ensures !(UnderSaturated in Issues(q, c) && OverSaturated in Issues(q, c))
  {
    PhraseIffCheck(q, c);
  }

  /** A sharpness failure makes the message an error whatever else is wrong. */
  lemma BlurryIsError(q: ImageQuality, c: AnalyzerConfig)
    requires q.sharpness < c.sharpnessThreshold
    ensures Severity(q, c) == Error
    ensures Issues(q, c)[0] == Blurry
  {
  }

  /** A metric sitting exactly on its threshold or band edge is not an issue. */
  lemma ThresholdsAreStrict(q: ImageQuality, c: AnalyzerConfig)
    requires q.sharpness == c.sharpnessThreshold
    requires q.brightness == c.brightnessLowerThreshold || q.brightness == c.brightnessUpperThreshold
    requires c.brightnessLowerThreshold <= c.brightnessUpperThreshold
    requires q.noise == c.noiseThreshold
    requires q.contrast == c.contrastThreshold
    requires q.saturation == c.saturationLowerThreshold || q.saturation == c.saturationUpperThreshold
    requires c.saturationLowerThreshold <= c.saturationUpperThreshold
    ensures Issues(q, c) == []
    ensures ComposeText(Issues(q, c)) == GoodQuality && Severity(q, c) == Success
  {
  }

  /** The message text says exactly which checks failed: two samples get the
      same text only when they have the same issues. */
  lemma TextDeterminesIssues(q1: ImageQuality, c1: AnalyzerConfig, q2: ImageQuality, c2: AnalyzerConfig)
    requires ComposeText(Issues(q1, c1)) == ComposeText(Issues(q2, c2))
    ensures Issues(q1, c1) == Issues(q2, c2)
  {
    ComposeInjective(Issues(q1, c1), Issues(q2, c2));
  }

  /** The default bands are proper: lower edge below upper edge. */
  lemma DefaultBandsOrdered()
    ensures DefaultAnalyzerConfig.brightnessLowerThreshold < DefaultAnalyzerConfig.brightnessUpperThreshold
    ensures DefaultAnalyzerConfig.saturationLowerThreshold < DefaultAnalyzerConfig.saturationUpperThreshold
  {
  }

  /** A blurry and noisy sample that is otherwise fine. */
  lemma BlurryAndNoisyExample(t: int)
    ensures var q := ImageQuality(10, 50, 80, 50, 50, t);
            ComposeText(Issues(q, DefaultAnalyzerConfig)) == "Image is too blurry and too noisy"
            && Severity(q, DefaultAnalyzerConfig) == Error
  {
    var q := ImageQuality(10, 50, 80, 50, 50, t);
    assert Issues(q, DefaultAnalyzerConfig) == [Blurry, Noisy];
    ComposeTwo(Blurry, Noisy);
    assert Lead + Blurry == "Image is too blurry";
    assert "Image is too blurry" + And == "Image is too blurry and ";
    assert "Image is too blurry and " + Noisy == "Image is too blurry and too noisy";
  }

  /** Two issues are joined with " and ". */
  lemma ComposeTwo(a: string, b: string)
    ensures ComposeText([a, b]) == Lead + a + And + b
  {
    assert [a, b][..1] == [a];
    Regroup(Lead, a, And, b);
  }

  /** Four issues: the first three joined with ", ", then " and " and the last. */
  lemma {:induction false} ComposeFour(a: string, b: string, c: string, d: string)
    ensures ComposeText([a, b, c, d]) == Lead + a + Comma + b + Comma + c + And + d
  {
    assert [a, b, c, d][..3] == [a, b, c];
    assert [a, b, c][1..] == [b, c];
    assert [b, c][1..] == [c];
    assert Join([c], Comma) == c;
    assert Join([b, c], Comma) == b + Comma + c;
    var j := Join([a, b, c], Comma);
    assert j == a + Comma + (b + Comma + c);
    Regroup(Lead, j, And, d);
    Assoc(Lead, a + Comma, b + Comma + c);
    Assoc(Lead, a, Comma);
    Assoc(Lead + a + Comma, b + Comma, c);
    Assoc(Lead + a + Comma, b, Comma);
  }

  lemma FourPhrasePrefix()
    ensures Lead + Dark + Comma + Noisy + Comma == "Image is too dark, too noisy, "
  {
    assert Lead + Dark == "Image is too dark";
    assert "Image is too dark" + Comma == "Image is too dark, ";
    assert "Image is too dark, " + Noisy == "Image is too dark, too noisy";
    assert "Image is too dark, too noisy" + Comma == "Image is too dark, too noisy, ";
  }

  lemma FourPhraseMiddle()
    ensures Lead + Dark + Comma + Noisy + Comma + LowContrast + And
              == "Image is too dark, too noisy, low contrast and "
  {
    FourPhrasePrefix();
    assert "Image is too dark, too noisy, " + LowContrast == "Image is too dark, too noisy, low contrast";
    assert "Image is too dark, too noisy, low contrast" + And
        == "Image is too dark, too noisy, low contrast and ";
  }

  lemma FourPhraseText()
    ensures ComposeText([Dark, Noisy, LowContrast, OverSaturated])
              == "Image is too dark, too noisy, low contrast and over-saturated"
  {
    ComposeFour(Dark, Noisy, LowContrast, OverSaturated);
    FourPhraseMiddle();
    assert "Image is too dark, too noisy, low contrast and " + OverSaturated
        == "Image is too dark, too noisy, low contrast and over-saturated";
  }

  /** Dark, noisy, flat and over-saturated: four phrases, and a warning because
      the brightness, noise and contrast checks outrank saturation. */
  lemma FourIssueExample(t: int)
    ensures var q := ImageQuality(90, 10, 80, 20, 95, t);
            ComposeText(Issues(q, DefaultAnalyzerConfig))
              == "Image is too dark, too noisy, low contrast and over-saturated"
            && Severity(q, DefaultAnalyzerConfig) == Warning
  {
    var q := ImageQuality(90, 10, 80, 20, 95, t);
    assert Issues(q, DefaultAnalyzerConfig) == [Dark, Noisy, LowContrast, OverSaturated];
    FourPhraseText();
  }
}
