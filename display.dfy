/** The renderer's small pure helpers: the duration badge text, the title
    milestone schedule and the assistant label shown for the selected model. */
module Display {
  import opened Wrappers
  import opened Text

  /** `formatDuration`: milliseconds below one second, whole seconds below
      one minute, otherwise minutes and the remaining seconds. */
  function FormatDuration(ms: nat): string {
    if ms < 1000 then NatToString(ms) + "ms"
    else
      var totalSeconds := ms / 1000;
      if totalSeconds < 60 then NatToString(totalSeconds) + "s"
      else NatToString(totalSeconds / 60) + "m" + NatToString(totalSeconds % 60) + "s"
  }

  /** The three shapes a duration badge can have. */
  datatype Duration = Millis(ms: nat) | Secs(secs: nat) | MinSecs(mins: nat, secs: nat)

  /** Reads a badge text back: digits followed by `ms` or `s`, or digits, `m`,
      digits and `s`. Anything else is not a duration. */
  function ParseDuration(s: string): Option<Duration> {
    var k := DigitSpan(s);
    if k == 0 then None else ParseUnit(ParseDigits(s[..k]), s[k..])
  }

  /** What follows the leading number `n` of a badge text. */
  function ParseUnit(n: nat, rest: string): Option<Duration> {
    if rest == "ms" then Some(Millis(n))
    else if rest == "s" then Some(Secs(n))
    else if |rest| >= 1 && rest[0] == 'm' then
      var t := rest[1..];
      var j := DigitSpan(t);
      if j > 0 && t[j..] == "s" then Some(MinSecs(n, ParseDigits(t[..j]))) else None
    else None
  }

  lemma ReadNumberThen(n: nat, rest: string)
    requires rest == [] || !IsDigit(rest[0])
    ensures DigitSpan(NatToString(n) + rest) == |NatToString(n)|
    ensures (NatToString(n) + rest)[..|NatToString(n)|] == NatToString(n)
    ensures (NatToString(n) + rest)[|NatToString(n)|..] == rest
    ensures ParseDigits(NatToString(n)) == n
  {
    DigitSpanOfConcat(NatToString(n), rest);
    ParseNatToString(n);
  }

  lemma ParseMillisText(n: nat)
    ensures ParseDuration(NatToString(n) + "ms") == Some(Millis(n))
  {
    ReadNumberThen(n, "ms");
  }

  lemma ParseSecsText(n: nat)
    ensures ParseDuration(NatToString(n) + "s") == Some(Secs(n))
  {
    ReadNumberThen(n, "s");
  }

  lemma ParseUnitMinutes(n: nat, b: string)
    requires b != [] && AllDigits(b)
    ensures ParseUnit(n, "m" + b + "s") == Some(MinSecs(n, ParseDigits(b)))
  {
    var rest := "m" + b + "s";
    assert rest[1..] == b + "s";
    DigitSpanOfConcat(b, "s");
    assert (b + "s")[..|b|] == b;
    assert rest != "ms" by { assert rest[1] == b[0]; }
  }

  lemma ParseMinSecsText(m: nat, s: nat)
    ensures ParseDuration(NatToString(m) + "m" + NatToString(s) + "s") == Some(MinSecs(m, s))
  {
    var a, b := NatToString(m), NatToString(s);
    var rest := "m" + b + "s";
    assert a + "m" + b + "s" == a + rest;
    ReadNumberThen(m, rest);
    ParseUnitMinutes(m, b);
    ParseNatToString(s);
  }

  /** Every badge text reads back as the duration it was made from: the exact
      milliseconds below 1000, the whole seconds below 60000, and otherwise
      minutes and seconds with 0 <= secs < 60 and mins * 60 + secs == ms / 1000. */
  lemma FormatDurationReadsBack(ms: nat)
    ensures match ParseDuration(FormatDuration(ms))
            case Some(Millis(x)) => ms < 1000 && x == ms
            case Some(Secs(x)) => 1000 <= ms < 60000 && x == ms / 1000
            case Some(MinSecs(m, s)) => ms >= 60000 && m >= 1 && s < 60 && m * 60 + s == ms / 1000
            case None => false
  {
    var total := ms / 1000;
    if ms < 1000 {
      ParseMillisText(ms);
    } else if total < 60 {
      ParseSecsText(total);
    } else {
      ParseMinSecsText(total / 60, total % 60);
    }
  }

  /** The early milestones at which a conversation's title is regenerated. */
  const TitleUpdateSequence: seq<int> := [1, 2, 3, 5, 8]

  /** `shouldUpdateTitle`: the exchange counts 1, 2, 3, 5 and 8, then every
      multiple of 8 after that. */
  function ShouldUpdateTitle(messageCount: int): (r: bool)
    ensures r <==> messageCount in {1, 2, 3, 5, 8} || (messageCount > 8 && messageCount % 8 == 0)
  {
    messageCount in TitleUpdateSequence || (messageCount > 8 && messageCount % 8 == 0)
  }

  /** The next exchange count after `n` at which the title is regenerated. */
  function NextTitleMilestone(n: int): (m: int)
    ensures m > n && ShouldUpdateTitle(m)
    ensures forall k :: n < k < m ==> !ShouldUpdateTitle(k)
  {
    if n < 1 then 1
    else if n < 3 then n + 1
    else if n < 5 then 5
    else if n < 8 then 8
    else (n / 8 + 1) * 8
  }

  /** The schedule over the first exchanges: it fires at 1, 2, 3, 5, 8, 16 and 24
      and at no other count up to 24. */
  lemma TitleScheduleUpTo24()
    ensures forall k :: 0 <= k <= 24 ==> (ShouldUpdateTitle(k) <==> k in {1, 2, 3, 5, 8, 16, 24})
  {
    assert NextTitleMilestone(8) == 16;
    assert NextTitleMilestone(16) == 24;
  }

  /** `selectedModel.split(':')[0]`: the model name up to its first colon. */
  function BeforeColon(s: string): (r: string)
    ensures |r| <= |s| && r == s[..|r|]
    ensures ':' !in r
    ensures |r| == |s| || s[|r|] == ':'
  {
    if s == [] || s[0] == ':' then []
    else [s[0]] + BeforeColon(s[1..])
  }

  /** `getModelDisplayName`: "Assistant" when no model is selected, otherwise
      the name before the tag with its first letter upper-cased. */
  function ModelDisplayName(selectedModel: Option<string>): (r: string)
    ensures selectedModel == None || selectedModel.value == [] ==> r == "Assistant"
    ensures selectedModel.Some? && selectedModel.value != [] ==>
              var name := BeforeColon(selectedModel.value);
              && |r| == |name|
              && (name != [] ==> r[0] == ToUpper(name[0]) && r[1..] == name[1..])
              && ':' !in r
  {
    if selectedModel == None || selectedModel.value == [] then "Assistant"
    else
      var name := BeforeColon(selectedModel.value);
      if name == [] then [] else [ToUpper(name[0])] + name[1..]
  }

  /** The documented example: "gemma3:latest" is shown as "Gemma3". */
  lemma ModelDisplayNameExample()
    ensures ModelDisplayName(Some("gemma3:latest")) == "Gemma3"
  {
    var s := "gemma3:latest";
    assert BeforeColon(s[6..]) == [];
    assert BeforeColon(s) == "gemma3";
  }
}
