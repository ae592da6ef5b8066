/** The English sentence of a feedback message: the seven issue phrases, the
    way they are joined into one sentence, and a reader that recovers the
    phrase list from the sentence (which shows that the sentence loses nothing). */
module MessageText {
  import opened Types

  const Blurry: string := "too blurry"
  const Dark: string := "too dark"
  const Bright: string := "too bright"
  const Noisy: string := "too noisy"
  const LowContrast: string := "low contrast"
  const UnderSaturated: string := "under-saturated"
  const OverSaturated: string := "over-saturated"

  const GoodQuality: string := "Good image quality"
  const Lead: string := "Image is "
  const Comma: string := ", "
  const And: string := " and "

  /** The phrases the classifier can report, in the order its checks run. */
  predicate IsPhrase(p: string)
  {
    p == Blurry || p == Dark || p == Bright || p == Noisy
    || p == LowContrast || p == UnderSaturated || p == OverSaturated
  }

  /** Position of a phrase in the check order. */
  function PhraseRank(p: string): nat
  {
    if p == Blurry then 0
    else if p == Dark then 1
    else if p == Bright then 2
    else if p == Noisy then 3
    else if p == LowContrast then 4
    else if p == UnderSaturated then 5
    else 6
  }

  /** Array.prototype.join: the elements separated by sep. */
  function Join(xs: seq<string>, sep: string): string
  {
    if xs == [] then []
    else if |xs| == 1 then xs[0]
    else xs[0] + sep + Join(xs[1..], sep)
  }

  /** The part of the sentence after "Image is ": the last issue is popped,
      the others are joined with ", ", and " and " precedes the last one. */
  function Body(issues: seq<string>): string
    requires issues != []
  {
    if |issues| == 1 then issues[0]
    else Join(issues[..|issues| - 1], Comma) + And + issues[|issues| - 1]
  }

  /** The sentence for a list of issues: "Good image quality" for none,
      "Image is <a>" for one, and "Image is <a>, <b> and <c>" for several. */
  function ComposeText(issues: seq<string>): (r: string)
    ensures issues == [] <==> r == GoodQuality
    ensures issues != [] ==> Lead <= r
  {
    if issues == [] then GoodQuality
    else
      var r := Lead + Body(issues);
      assert r[0] == Lead[0] != GoodQuality[0];
      r
  }

  lemma Assoc(x: string, y: string, z: string)
    ensures x + (y + z) == x + y + z
  {
  }

  /** Regrouping four concatenated strings. */
  lemma Regroup(w: string, x: string, y: string, z: string)
    ensures w + x + y + z == w + (x + y + z)
  {
  }

  /** Peeling the first phrase off a body of two or more phrases. */
  lemma {:induction false} BodyCons(issues: seq<string>)
    requires |issues| >= 2
    ensures |issues| == 2 ==> Body(issues) == issues[0] + And + issues[1]
    ensures |issues| > 2 ==> Body(issues) == issues[0] + Comma + Body(issues[1..])
  {
    var k := |issues|;
    if k > 2 {
      var init, tail := issues[..k - 1], issues[1..];
      assert init[1..] == tail[..k - 2];
      var j := Join(tail[..k - 2], Comma);
      assert Join(init, Comma) == issues[0] + Comma + j;
      assert Body(tail) == j + And + issues[k - 1];
      Regroup(issues[0] + Comma, j, And, issues[k - 1]);
    } else {
      assert issues[..1] == [issues[0]];
    }
  }

  /** The phrase of the vocabulary that the text starts with, if any. */
  function MatchPhrase(s: string): (r: Option<string>)
    ensures r.Some? ==> IsPhrase(r.value) && r.value <= s
  {
    if Blurry <= s then Some(Blurry)
    else if Dark <= s then Some(Dark)
    else if Bright <= s then Some(Bright)
    else if Noisy <= s then Some(Noisy)
    else if LowContrast <= s then Some(LowContrast)
    else if UnderSaturated <= s then Some(UnderSaturated)
    else if OverSaturated <= s then Some(OverSaturated)
    else None
  }

  /** What follows a separator ", " or " and " at the start of the text. */
  function AfterSeparator(s: string): (r: Option<string>)
    ensures r.Some? ==> |r.value| < |s|
  {
    if Comma <= s then Some(s[|Comma|..])
    else if And <= s then Some(s[|And|..])
    else None
  }

  /** Reads a list of phrases separated by ", " or " and ". */
  function DecodeBody(s: string): (r: Option<seq<string>>)
    decreases |s|
    ensures r.Some? ==> r.value != [] && forall p :: p in r.value ==> IsPhrase(p)
  {
    match MatchPhrase(s)
    case None => None
    case Some(p) =>
      var rest := s[|p|..];
      if rest == [] then Some([p])
      else
        match AfterSeparator(rest)
        case None => None
        case Some(t) =>
          match DecodeBody(t)
          case None => None
          case Some(tail) => Some([p] + tail)
  }

  /** Reads the issue list back from a feedback sentence. */
  function DecodeText(t: string): (r: Option<seq<string>>)
    ensures r.Some? ==> forall p :: p in r.value ==> IsPhrase(p)
  {
    if t == GoodQuality then Some([])
    else if Lead <= t then DecodeBody(t[|Lead|..])
    else None
  }

  /** No phrase of the vocabulary is a prefix of another one followed by anything. */
  lemma PrefixFree(p: string, q: string, rest: string)
    requires IsPhrase(p) && IsPhrase(q)
    requires q <= p + rest
    ensures q == p
  {
    assert q[0] == (p + rest)[0] == p[0];
    assert q[4] == (p + rest)[4] == p[4];
    assert q[5] == (p + rest)[5] == p[5];
  }

  lemma MatchPhraseOf(p: string, rest: string)
    requires IsPhrase(p)
    ensures MatchPhrase(p + rest) == Some(p)
  {
    var r := MatchPhrase(p + rest);
    assert p <= p + rest;
    assert r.Some?;
    PrefixFree(p, r.value, rest);
  }

  lemma DecodeSingle(p: string)
    requires IsPhrase(p)
    ensures DecodeBody(p) == Some([p])
  {
    assert p + [] == p;
    MatchPhraseOf(p, []);
    assert p[|p|..] == [];
  }

  lemma SeparatorOf(sep: string, t: string)
    requires sep == Comma || sep == And
    ensures AfterSeparator(sep + t) == Some(t)
  {
    var s := sep + t;
    if sep == And {
      assert !(Comma <= s) by { assert s[0] == ' ' != Comma[0]; }
      assert And <= s;
    } else {
      assert Comma <= s;
    }
    assert s[|sep|..] == t;
  }

  /** One phrase, a separator, then the rest of a body. */
  lemma DecodeStep(p: string, sep: string, t: string)
    requires IsPhrase(p) && (sep == Comma || sep == And)
    requires DecodeBody(t).Some?
    ensures DecodeBody(p + sep + t) == Some([p] + DecodeBody(t).value)
  {
    var rest := sep + t;
    assert p + sep + t == p + rest;
    MatchPhraseOf(p, rest);
    assert (p + rest)[|p|..] == rest;
    SeparatorOf(sep, t);
  }

  /** If the body of the tail reads back, so does the body of the whole list. */
  lemma DecodeBodyCons(issues: seq<string>)
    requires |issues| >= 2 && IsPhrase(issues[0])
    requires DecodeBody(Body(issues[1..])) == Some(issues[1..])
    ensures DecodeBody(Body(issues)) == Some(issues)
  {
    var p, tail := issues[0], issues[1..];
    BodyCons(issues);
    if |issues| == 2 {
      assert Body(tail) == issues[1];
      DecodeStep(p, And, issues[1]);
    } else {
      DecodeStep(p, Comma, Body(tail));
    }
    assert [p] + tail == issues;
  }

  lemma {:induction false} DecodeBodyRoundTrip(issues: seq<string>)
    requires issues != []
    requires forall p :: p in issues ==> IsPhrase(p)
    ensures DecodeBody(Body(issues)) == Some(issues)
    decreases |issues|
  {
    if |issues| == 1 {
      DecodeSingle(issues[0]);
      assert issues == [issues[0]];
    } else {
      assert forall p :: p in issues[1..] ==> p in issues;
      DecodeBodyRoundTrip(issues[1..]);
      DecodeBodyCons(issues);
    }
  }

  /** Reading the sentence back gives exactly the issue list it was made from. */
  lemma DecodeComposeRoundTrip(issues: seq<string>)
    requires forall p :: p in issues ==> IsPhrase(p)
    ensures DecodeText(ComposeText(issues)) == Some(issues)
  {
    if issues != [] {
      var t := ComposeText(issues);
      assert t != GoodQuality;
      assert t[|Lead|..] == Body(issues);
      DecodeBodyRoundTrip(issues);
    }
  }

  /** Two issue lists give the same sentence only when they are the same list. */
  lemma ComposeInjective(a: seq<string>, b: seq<string>)
    requires forall p :: p in a ==> IsPhrase(p)
    requires forall p :: p in b ==> IsPhrase(p)
    requires ComposeText(a) == ComposeText(b)
    ensures a == b
  {
    DecodeComposeRoundTrip(a);
    DecodeComposeRoundTrip(b);
  }
}
