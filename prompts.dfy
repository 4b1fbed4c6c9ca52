/**
 * The instruction sent with the recording, and the speaker hints it names.
 *
 * Both front ends say whether speaker identifiers were supplied; a missing
 * list and an empty list are both falsy in Python and lead to the generic
 * wording. The legacy app also states how many speakers there are.
 */
module Prompts {
  import opened Wrappers
  import opened Text

  const Lead: string := "Generate a transcript of the speech. "

  // ---------------------------------------------------------------------
  // Legacy app
  // ---------------------------------------------------------------------

  // The first word is a literal of its own so that proofs can read the sentence's first character.
  const LegacyUnknownCount: string := "Determine " + "the number of speakers from the audio."

  const LegacyGenericSpeakers: string :=
    "Speaker identifiers are not provided; use generic identifiers like SPEAKER 1, SPEAKER 2, etc., IN ALL CAPS."

  const LegacyInstructions: string :=
    "Structure the output STRICTLY as a JSON list of objects. "
    + "Each object represents a continuous block of speech from a single speaker and MUST contain BOTH a 'speaker' field "
    + "(using the provided identifiers IN ALL CAPS if available, otherwise generic ones like SPEAKER_1, SPEAKER_2, etc., IN ALL CAPS) "
    + "and a 'text' field containing ALL consecutive speech from that speaker before the speaker changes. "
    + "DO NOT create a new JSON object unless the speaker changes. Ensure every object has both 'speaker' and 'text' fields."

  const CountPrefix: string := "There are "

  function CountSentence(n: nat): string {
    CountPrefix + (NatToString(n) + " speakers.")
  }

  predicate Given(speakers: Option<seq<string>>) {
    speakers.Some? && speakers.value != []
  }

  function LegacyNamesSentence(names: seq<string>): string {
    "The speakers are identified as: " + (Join(names, ", ") + ".")
  }

  /** The prompt `generate_transcript` builds for `speaker_name_list`. */
  function LegacyPrompt(speakers: Option<seq<string>>): string {
    var countPart :=
      if Given(speakers) then CountSentence(|speakers.value|) else LegacyUnknownCount;
    var speakerPart :=
      if Given(speakers) then LegacyNamesSentence(speakers.value) else LegacyGenericSpeakers;
    Lead + (countPart + (" " + (speakerPart + (" " + LegacyInstructions))))
  }

  /** The leading decimal digits of `s`. */
  function LeadingDigits(s: string): (r: string)
    ensures |r| <= |s| && r == s[..|r|]
    ensures AllDigits(r)
  {
    if s != [] && IsDigit(s[0]) then [s[0]] + LeadingDigits(s[1..]) else []
  }

  lemma {:induction false} LeadingDigitsOf(d: string, rest: string)
    requires AllDigits(d)
    requires rest != [] && !IsDigit(rest[0])
    ensures LeadingDigits(d + rest) == d
  {
    if d != [] {
      assert (d + rest)[1..] == d[1..] + rest;
      LeadingDigitsOf(d[1..], rest);
    } else {
      assert d + rest == rest;
    }
  }

  /** The speaker count a reader takes from a prompt: the number after "There are ". */
  function StatedCount(prompt: string): nat {
    var start := |Lead| + |CountPrefix|;
    if start <= |prompt| then ParseDecimal(LeadingDigits(prompt[start..])) else 0
  }

  lemma StatedCountOf(n: nat, rest: string)
    ensures StatedCount(Lead + (CountSentence(n) + rest)) == n
  {
    var digits := NatToString(n);
    var tail := " speakers." + rest;
    var p := Lead + (CountSentence(n) + rest);
    assert p == (Lead + CountPrefix) + (digits + tail);
    assert p[|Lead| + |CountPrefix|..] == digits + tail;
    ParseNatToString(n);
    LeadingDigitsOf(digits, tail);
  }

  /**
   * With a non-empty list, the prompt states its length and names the
   * speakers: the count read back from the prompt is the list's length, the
   * names occur joined by ", " in their order, and so each name occurs.
   */
  lemma LegacyPromptNamesSpeakers(names: seq<string>)
    requires names != []
    ensures StatedCount(LegacyPrompt(Some(names))) == |names|
    ensures Contains(LegacyPrompt(Some(names)), CountSentence(|names|))
    ensures Contains(LegacyPrompt(Some(names)), Join(names, ", "))
    ensures forall i :: 0 <= i < |names| ==> Contains(LegacyPrompt(Some(names)), names[i])
  {
    var cs := CountSentence(|names|);
    var ns := LegacyNamesSentence(names);
    var joined := Join(names, ", ");
    var prompt := LegacyPrompt(Some(names));
    LegacyPromptWithNames(names);
    StatedCountOf(|names|, " " + (ns + (" " + LegacyInstructions)));
    LayoutContainsParts(Lead, cs, ns, LegacyInstructions);
    NamesSentenceHasJoin(names);
    ContainsTrans(prompt, ns, joined);
    JoinedPartsOccur(prompt, names, ", ");
  }

  /** The legacy prompt for a non-empty list, spelled out. */
  lemma LegacyPromptWithNames(names: seq<string>)
    requires names != []
    ensures LegacyPrompt(Some(names))
            == Lead + (CountSentence(|names|) + (" " + (LegacyNamesSentence(names) + (" " + LegacyInstructions))))
  {
  }

  lemma NamesSentenceHasJoin(names: seq<string>)
    ensures Contains(LegacyNamesSentence(names), Join(names, ", "))
  {
    var joined := Join(names, ", ");
    ContainsSelf(joined);
    ContainsLeft(joined, ".", joined);
    ContainsRight("The speakers are identified as: ", joined + ".", joined);
  }

  /**
   * Without speakers (absent or empty list) the prompt asks the model to
   * find the count and to use generic identifiers.
   */
  lemma LegacyPromptGeneric(speakers: Option<seq<string>>)
    requires !Given(speakers)
    ensures LegacyPrompt(speakers) == LegacyPrompt(None)
    ensures Contains(LegacyPrompt(speakers), LegacyUnknownCount)
    ensures Contains(LegacyPrompt(speakers), LegacyGenericSpeakers)
  {
    LayoutContainsParts(Lead, LegacyUnknownCount, LegacyGenericSpeakers, LegacyInstructions);
  }

  /** Both middle parts of `lead + count + " " + speakers + " " + instructions` occur in it. */
  lemma LayoutContainsParts(lead: string, count: string, speakers: string, instructions: string)
    ensures var p := lead + (count + (" " + (speakers + (" " + instructions))));
            Contains(p, count) && Contains(p, speakers)
  {
    var tail := " " + instructions;
    var rest := " " + (speakers + tail);
    ContainsSelf(count);
    ContainsLeft(count, rest, count);
    ContainsRight(lead, count + rest, count);
    ContainsSelf(speakers);
    ContainsLeft(speakers, tail, speakers);
    ContainsRight(" ", speakers + tail, speakers);
    ContainsRight(count, rest, speakers);
    ContainsRight(lead, count + rest, speakers);
  }


  /** A prompt built from a non-empty list is never the generic prompt. */
  lemma LegacyPromptsDiffer(names: seq<string>)
    requires names != []
    ensures LegacyPrompt(Some(names)) != LegacyPrompt(None)
  {
    var tail := " " + LegacyInstructions;
    var cs := CountSentence(|names|);
    assert cs[0] == 'T';
    assert LegacyUnknownCount[0] == 'D';
    FirstAfter(Lead, cs, " " + (LegacyNamesSentence(names) + tail));
    FirstAfter(Lead, LegacyUnknownCount, " " + (LegacyGenericSpeakers + tail));
  }

  /** The character right after `a` in `a + (b + c)` is the first of `b`. */
  lemma FirstAfter(a: string, b: string, c: string)
    requires b != []
    ensures (a + (b + c))[|a|] == b[0]
  {
  }

  // ---------------------------------------------------------------------
  // API
  // ---------------------------------------------------------------------

  /**
   * The generic clause of the API prompt; its `SPEAKER 1`, `SPEAKER 2` are
   * written with no-break spaces (U+00A0). The first word is a literal of its
   * own so that proofs can read the clause's first character.
   */
  const ApiGenericSpeakers: string := "Speaker " + "identifiers are not provided; use SPEAKER\U{A0}1, SPEAKER\U{A0}2, etc. "

  const ApiInstructions: string := "Return a JSON list where each item has 'speaker' and 'text'."

  /** The prompt `transcribe` builds from `req.speaker_names`. */
  function ApiPrompt(speakers: Option<seq<string>>): string {
    var speakerPart :=
      if Given(speakers) then "The speakers are: " + (Join(speakers.value, ", ") + ". ") else ApiGenericSpeakers;
    Lead + (speakerPart + ApiInstructions)
  }

  /**
   * The API prompt names the supplied speakers, joined by ", " in their
   * order, ends with the JSON instruction in both cases, and differs from
   * the generic prompt whenever speakers are supplied.
   */
  lemma ApiPromptNamesSpeakers(names: seq<string>)
    ensures names != [] ==> Contains(ApiPrompt(Some(names)), Join(names, ", "))
    ensures forall i :: 0 <= i < |names| ==> Contains(ApiPrompt(Some(names)), names[i])
    ensures ApiPrompt(None) == ApiPrompt(Some([]))
    ensures names != [] ==> ApiPrompt(Some(names)) != ApiPrompt(None)
    ensures EndsWith(ApiPrompt(Some(names)), ApiInstructions)
  {
    if names != [] {
      var joined := Join(names, ", ");
      var named := "The speakers are: " + (joined + ". ");
      var prompt := ApiPrompt(Some(names));
      ContainsSelf(joined);
      ContainsLeft(joined, ". ", joined);
      ContainsRight("The speakers are: ", joined + ". ", joined);
      ContainsLeft(named, ApiInstructions, joined);
      ContainsRight(Lead, named + ApiInstructions, joined);
      JoinedPartsOccur(prompt, names, ", ");
      assert named[0] == 'T';
      assert ApiGenericSpeakers[0] == 'S';
      FirstAfter(Lead, named, ApiInstructions);
      FirstAfter(Lead, ApiGenericSpeakers, ApiInstructions);
      EndsWithSuffix(Lead, named, ApiInstructions);
    } else {
      EndsWithSuffix(Lead, ApiGenericSpeakers, ApiInstructions);
    }
  }

  predicate EndsWith(s: string, suffix: string) {
    |suffix| <= |s| && s[|s| - |suffix|..] == suffix
  }

  lemma EndsWithSuffix(a: string, b: string, c: string)
    ensures EndsWith(a + (b + c), c)
  {
    assert a + (b + c) == (a + b) + c;
    assert ((a + b) + c)[|a + b|..] == c;
  }

  // ---------------------------------------------------------------------
  // Speaker hints entered in the legacy form
  // ---------------------------------------------------------------------

  /**
   * The identifier for the `i`-th (0-based) entry: the entry stripped and
   * upper-cased, or `SPEAKER i+1` when nothing was typed.
   */
  function NormalisedHint(entered: string, i: nat): string {
    if entered != "" then Upper(Strip(entered)) else "SPEAKER " + NatToString(i + 1)
  }

  /** The loop that builds `speaker_names_input`, one identifier per entry. */
  method NormaliseHints(entered: seq<string>) returns (hints: seq<string>)
    ensures |hints| == |entered|
    ensures forall i :: 0 <= i < |entered| ==> hints[i] == NormalisedHint(entered[i], i)
  {
    ghost var expected := seq(|entered|, k requires 0 <= k < |entered| => NormalisedHint(entered[k], k));
    hints := [];
    var i := 0;
    while i < |entered|
      invariant 0 <= i <= |entered|
      invariant hints == expected[..i]
    {
      hints := hints + [NormalisedHint(entered[i], i)];
      i := i + 1;
      assert hints == expected[..i];
    }
    assert hints == expected;
  }


  lemma UpperKeepsSpaces(s: string)
    ensures forall i :: 0 <= i < |s| ==> (IsSpace(Upper(s)[i]) <==> IsSpace(s[i]))
  {
    forall i | 0 <= i < |s|
      ensures IsSpace(Upper(s)[i]) <==> IsSpace(s[i])
    {
      UpperAt(s, i);
    }
  }

  /**
   * Every identifier is upper case and has no whitespace at either end; it
   * is empty only when the entry was non-empty but all whitespace.
   */
  lemma NormalisedHintShape(entered: string, i: nat)
    ensures IsUpperCase(NormalisedHint(entered, i))
    ensures var h := NormalisedHint(entered, i);
            h == [] || (!IsSpace(h[0]) && !IsSpace(h[|h| - 1]))
    ensures NormalisedHint(entered, i) == [] <==>
              entered != [] && forall k :: 0 <= k < |entered| ==> IsSpace(entered[k])
  {
    if entered != "" {
      var lo, hi := StripSpec(entered);
      UpperIsUpperCase(Strip(entered));
      UpperKeepsSpaces(Strip(entered));
      StripEmptyIffBlank(entered);
    } else {
      var h := NormalisedHint(entered, i);
      NatToStringDigits(i + 1);
      assert h[0] == 'S';
      assert IsDigit(h[|h| - 1]);
    }
  }

  /** Normalising an identifier that already went through the form changes nothing, unless it came out empty. */
  lemma NormalisedHintIdempotent(entered: string, i: nat)
    requires NormalisedHint(entered, i) != []
    ensures NormalisedHint(NormalisedHint(entered, i), i) == NormalisedHint(entered, i)
  {
    var h := NormalisedHint(entered, i);
    NormalisedHintShape(entered, i);
    assert TrimStart(h) == h;
    assert TrimEnd(h) == h;
    UpperKeepsUpperCase(h);
  }

  /** The default identifiers of two different positions are different. */
  lemma DefaultHintsDistinct(i: nat, j: nat)
    requires i != j
    ensures NormalisedHint("", i) != NormalisedHint("", j)
  {
    var prefix, x, y := "SPEAKER ", NatToString(i + 1), NatToString(j + 1);
    NatToStringInjective(i + 1, j + 1);
    assert NormalisedHint("", i) == prefix + x && (prefix + x)[|prefix|..] == x;
    assert NormalisedHint("", j) == prefix + y && (prefix + y)[|prefix|..] == y;
  }


  /** A hint of only spaces is truthy, so it is stripped to the empty identifier instead of getting the default. */
  lemma BlankHintBecomesEmpty(i: nat)
    ensures NormalisedHint("   ", i) == ""
  {
    assert TrimStart("   ") == "";
  }
}
