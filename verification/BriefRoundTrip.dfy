/**
 Building a v2 content brief and normalising it again. A brief is the entries that the builder
 writes and the normaliser reads by name, Null where there is none. `render` is Python's `str` on
 values that are not text.
 */
module BriefRoundTrip {
  import opened Wrappers
  import opened Text
  import opened JsonValues
  import opened ContentBrief

  const SCHEMA_V2 := "content_brief.v2"
  const SCHEMA_V1 := "content_brief.v1"
  const FALLBACK_SOURCE := "legacy_segment_content_hints"
  const LEGACY_SOURCE := "legacy_content_brief_v1"
  const DEFAULT_DIRECTION := "Use the segment profile to produce clear hotel booking content."
  const DO_NOT_CLAIM := ["확인되지 않은 할인율", "확인되지 않은 객실 재고"]

  const SIGNALS := "primary_signals"
  const SCORES := "score_components"
  const BASIS := "promotion_vector_basis"
  const MATCHED := "promotion_matched_features"
  const EVIDENCE_SECTIONS := [SIGNALS, SCORES, BASIS, MATCHED]
  const REQUIRED_EVIDENCE := [SIGNALS, SCORES]

  const AUDIENCE_EVIDENCE := "audience_evidence"
  const HOTEL_PROFILE := "hotel_profile"
  const OPERATOR_INSTRUCTION := "operator_instruction"
  const FALLBACK_GUIDANCE := "fallback_guidance"
  const ALWAYS_AVAILABLE := ["segment_snapshot", "promotion_context", FALLBACK_GUIDANCE, "source_refs"]
  const SUPPORTED_AVAILABLE :=
    ALWAYS_AVAILABLE + [AUDIENCE_EVIDENCE, HOTEL_PROFILE, OPERATOR_INSTRUCTION, "generation_constraints"]

  /** `_json_object`. */
  function JsonObject(j: Json): seq<Field> {
    if j.Obj? then j.fields else []
  }

  /** `_optional_text`. */
  function OptionalText(j: Json): Option<string> {
    if j.Str? && !Blank(j.text) then Some(Strip(j.text)) else None
  }

  function AsText(j: Json, render: Json -> string): string {
    if j.Str? then j.text else render(j)
  }

  /** `_string_list` of a sequence. */
  function TrimmedTexts(items: seq<Json>, render: Json -> string): seq<string> {
    if items == [] then []
    else
      var text := Strip(AsText(items[0], render));
      (if text == "" then [] else [text]) + TrimmedTexts(items[1..], render)
  }

  function StringList(j: Json, render: Json -> string): seq<string> {
    if j.Arr? then TrimmedTexts(j.items, render) else []
  }

  function Texts(list: seq<string>): seq<Json> {
    seq(|list|, i requires 0 <= i < |list| => Str(list[i]))
  }

  // ---------------------------------------------------------------------------
  // Audience evidence
  // ---------------------------------------------------------------------------

  /** One section of evidence: a list or an object by its name, compacted, if anything remains. */
  function SupportedSection(section: string, item: Json): seq<Field> {
    if section == SIGNALS || section == MATCHED then
      if item.Arr? && CompactItems(item.items) != [] then [Field(section, Arr(CompactItems(item.items)))] else []
    else if item.Obj? && CompactFields(item.fields) != [] then [Field(section, Obj(CompactFields(item.fields)))]
    else []
  }

  function SupportedBelow(value: seq<Field>, n: nat): seq<Field>
    requires n <= |EVIDENCE_SECTIONS|
  {
    if n == 0 then []
    else
      var section := EVIDENCE_SECTIONS[n - 1];
      SupportedBelow(value, n - 1) + SupportedSection(section, Get(value, section))
  }

  function SupportedEvidence(value: seq<Field>): seq<Field> {
    SupportedBelow(value, |EVIDENCE_SECTIONS|)
  }

  /** `_supported_audience_evidence`. */
  method SupportedAudienceEvidence(value: seq<Field>) returns (supported: seq<Field>)
    ensures supported == SupportedEvidence(value)
  {
    supported := [];
    for n := 0 to |EVIDENCE_SECTIONS|
      invariant supported == SupportedBelow(value, n)
    {
      var section := EVIDENCE_SECTIONS[n];
      var item := Get(value, section);
      if section == SIGNALS || section == MATCHED {
        if item.Arr? {
          var compactItems := CompactSequence(item.items);
          if compactItems != [] {
            supported := supported + [Field(section, Arr(compactItems))];
          }
        }
      } else if item.Obj? {
        var compactMapping := CompactEmpty(item.fields);
        if compactMapping != [] {
          supported := supported + [Field(section, Obj(compactMapping))];
        }
      }
    }
  }

  lemma SectionsDiffer(i: nat, j: nat)
    requires i < j < |EVIDENCE_SECTIONS|
    ensures EVIDENCE_SECTIONS[i] != EVIDENCE_SECTIONS[j]
  {
    assert SIGNALS[1] == 'r' && SCORES[1] == 'c' && BASIS[1] == 'r' && MATCHED[1] == 'r';
    assert SIGNALS[2] == 'i' && BASIS[2] == 'o' && MATCHED[2] == 'o';
    assert BASIS[10] == 'v' && MATCHED[10] == 'm';
  }

  lemma {:induction false} GetAfter(fields: seq<Field>, more: seq<Field>, key: string)
    requires forall i :: 0 <= i < |fields| ==> fields[i].key != key
    ensures Get(fields + more, key) == Get(more, key)
  {
    if fields == [] {
      assert fields + more == more;
    } else {
      GetAfter(fields[1..], more, key);
      assert (fields + more)[1..] == fields[1..] + more;
    }
  }

  lemma {:induction false} GetBefore(fields: seq<Field>, more: seq<Field>, key: string)
    requires forall i :: 0 <= i < |more| ==> more[i].key != key
    ensures Get(fields + more, key) == Get(fields, key)
  {
    if fields == [] {
      assert fields + more == more;
      GetAfter(more, [], key);
      assert more + [] == more;
    } else if fields[0].key != key {
      GetBefore(fields[1..], more, key);
      assert (fields + more)[1..] == fields[1..] + more;
    }
  }

  lemma {:induction false} SupportedKeys(value: seq<Field>, n: nat, m: nat)
    requires n <= m < |EVIDENCE_SECTIONS|
    ensures forall i :: 0 <= i < |SupportedBelow(value, n)| ==> SupportedBelow(value, n)[i].key != EVIDENCE_SECTIONS[m]
  {
    if n > 0 {
      SupportedKeys(value, n - 1, m);
      SectionsDiffer(n - 1, m);
    }
  }

  function Contents(fields: seq<Field>): Json {
    if fields == [] then Null else fields[0].value
  }

  /** Looking a section up in supported evidence gives that section's compaction. */
  lemma {:induction false} GetSupported(value: seq<Field>, n: nat, m: nat)
    requires m < n <= |EVIDENCE_SECTIONS|
    ensures var section := EVIDENCE_SECTIONS[m];
            (Get(SupportedBelow(value, n), section)
             == Contents(SupportedSection(section, Get(value, section))))
  {
    var section := EVIDENCE_SECTIONS[m];
    var last := EVIDENCE_SECTIONS[n - 1];
    var before, added := SupportedBelow(value, n - 1), SupportedSection(last, Get(value, last));
    if m == n - 1 {
      SupportedKeys(value, n - 1, m);
      GetAfter(before, added, section);
      assert added != [] ==> added[0].key == section;
    } else {
      SectionsDiffer(m, n - 1);
      GetBefore(before, added, section);
      GetSupported(value, n - 1, m);
    }
  }

  lemma SectionIsFixed(section: string, item: Json)
    ensures (SupportedSection(section, Contents(SupportedSection(section, item)))
             == SupportedSection(section, item))
  {
    match item {
      case Arr(items) =>
        ItemsAreClean(items);
        CleanItemsFixed(CompactItems(items));
      case Obj(fields) =>
        FieldsAreClean(fields);
        CleanFieldsFixed(CompactFields(fields));
      case _ =>
    }
  }

  lemma SectionComesBack(value: seq<Field>, m: nat)
    requires m < |EVIDENCE_SECTIONS|
    ensures var section := EVIDENCE_SECTIONS[m];
            (SupportedSection(section, Get(SupportedEvidence(value), section))
             == SupportedSection(section, Get(value, section)))
  {
    GetSupported(value, |EVIDENCE_SECTIONS|, m);
    SectionIsFixed(EVIDENCE_SECTIONS[m], Get(value, EVIDENCE_SECTIONS[m]));
  }

  lemma {:induction false} SupportedTwiceBelow(value: seq<Field>, n: nat)
    requires n <= |EVIDENCE_SECTIONS|
    ensures SupportedBelow(SupportedEvidence(value), n) == SupportedBelow(value, n)
  {
    if n > 0 {
      SupportedTwiceBelow(value, n - 1);
      SectionComesBack(value, n - 1);
    }
  }

  /** Supported evidence is a fixed point, so reading it back from a brief loses nothing. */
  lemma EvidenceIsStable(value: seq<Field>)
    ensures SupportedEvidence(SupportedEvidence(value)) == SupportedEvidence(value)
  {
    SupportedTwiceBelow(value, |EVIDENCE_SECTIONS|);
  }

  // ---------------------------------------------------------------------------
  // Readiness
  // ---------------------------------------------------------------------------

  datatype Readiness = Readiness(level: string, missing: seq<string>)

  function Missing(evidence: seq<Field>, n: nat): seq<string>
    requires n <= |REQUIRED_EVIDENCE|
  {
    if n == 0 then []
    else
      var section := REQUIRED_EVIDENCE[n - 1];
      Missing(evidence, n - 1) + (if Get(evidence, section) == Null then [section] else [])
  }

  /** `_readiness_for`; evidence never holds a null, so looking a section up tells whether it is there. */
  function ReadinessFor(evidence: seq<Field>): Readiness {
    var missing := Missing(evidence, |REQUIRED_EVIDENCE|);
    var level :=
      if missing == [] then "evidence_ready"
      else if |missing| == |REQUIRED_EVIDENCE| then "fallback_only"
      else "partial";
    Readiness(level, missing)
  }

  /** `_available_sections_from`, the filter on a stored list. */
  function Recognised(sections: seq<Json>, hasEvidence: bool, render: Json -> string): seq<string> {
    if sections == [] then []
    else
      var name := AsText(sections[0], render);
      (if name in SUPPORTED_AVAILABLE && (name != AUDIENCE_EVIDENCE || hasEvidence) then [name] else [])
      + Recognised(sections[1..], hasEvidence, render)
  }

  function AvailableSectionsFrom(readiness: seq<Field>, evidence: seq<Field>, render: Json -> string): seq<string> {
    var stored := Get(readiness, "available_sections");
    var available := if stored.Arr? then Recognised(stored.items, evidence != [], render) else [FALLBACK_GUIDANCE];
    available + (if evidence != [] && AUDIENCE_EVIDENCE !in available then [AUDIENCE_EVIDENCE] else [])
  }

  // ---------------------------------------------------------------------------
  // Building and normalising
  // ---------------------------------------------------------------------------

  datatype Inputs = Inputs(analysisId: string, snapshot: seq<Field>, context: seq<Field>,
                           direction: string, keywords: seq<string>, evidence: Option<seq<Field>>,
                           profile: Option<seq<Field>>, instruction: Option<string>)

  datatype Brief = Brief(schemaVersion: Json, messageDirection: Json, keywords: Json, readiness: Json,
                         segmentSnapshot: Json, promotionContext: Json, generationConstraints: Json,
                         fallbackGuidance: Json, sourceRefs: Json, audienceEvidence: Json,
                         hotelProfile: Json, operatorInstruction: Json)

  datatype Normalized = Normalized(schemaVersion: string, messageDirection: string, keywords: seq<string>,
                                   readiness: Readiness, available: seq<string>,
                                   fallbackGuidance: seq<Field>, evidence: seq<Field>,
                                   constraints: seq<Field>, profile: Option<seq<Field>>,
                                   instruction: Option<string>, fallbackPresent: bool)

  /** `_compact_nulls`. */
  function CompactNulls(fields: seq<Field>): seq<Field> {
    if fields == [] then []
    else (if fields[0].value.Null? then [] else [fields[0]]) + CompactNulls(fields[1..])
  }

  function EvidenceOf(inputs: Inputs): seq<Field> {
    SupportedEvidence(if inputs.evidence.Some? then inputs.evidence.value else [])
  }

  /** What the brief announces as available. */
  function AnnouncedSections(inputs: Inputs): seq<string> {
    ALWAYS_AVAILABLE
    + (if EvidenceOf(inputs) != [] then [AUDIENCE_EVIDENCE] else [])
    + (if inputs.profile.Some? && inputs.profile.value != [] then [HOTEL_PROFILE] else [])
    + (if inputs.instruction.Some? && inputs.instruction.value != "" then [OPERATOR_INSTRUCTION] else [])
  }

  /** `build_content_brief_v2`. */
  function BuildContentBriefV2(inputs: Inputs, render: Json -> string): Brief {
    var snapshot, evidence := CompactNulls(inputs.snapshot), EvidenceOf(inputs);
    var readiness := ReadinessFor(evidence);
    var segmentId := Get(snapshot, "segment_id");
    Brief(
      Str(SCHEMA_V2), Null, Null,
      Obj([Field("level", Str(readiness.level)),
           Field("missing_sections", Arr(Texts(readiness.missing))),
           Field("available_sections", Arr(Texts(AnnouncedSections(inputs))))]),
      Obj(snapshot),
      Obj(CompactNulls(inputs.context)),
      Obj([Field("do_not_claim", Arr(Texts(DO_NOT_CLAIM)))]),
      Obj([Field("message_direction", Str(inputs.direction)),
           Field("keywords", Arr(Texts(TrimmedTexts(Texts(inputs.keywords), render)))),
           Field("source", Str(FALLBACK_SOURCE))]),
      Obj([Field("analysis_id", Str(inputs.analysisId)),
           Field("segment_definition_id", Str(if segmentId.Null? then "" else AsText(segmentId, render)))]),
      if evidence != [] then Obj(evidence) else Null,
      if inputs.profile.Some? && inputs.profile.value != [] then Obj(inputs.profile.value) else Null,
      if inputs.instruction.Some? && inputs.instruction.value != "" then Str(inputs.instruction.value) else Null)
  }

  function NormalizeV2(raw: Brief, render: Json -> string): Normalized {
    var guidance := JsonObject(raw.fallbackGuidance);
    var direction := OptionalText(Get(guidance, "message_direction"));
    var keywords := StringList(Get(guidance, "keywords"), render);
    var evidence := SupportedEvidence(JsonObject(raw.audienceEvidence));
    var profile := JsonObject(raw.hotelProfile);
    Normalized(SCHEMA_V2, if direction.Some? then direction.value else DEFAULT_DIRECTION, keywords,
               ReadinessFor(evidence), AvailableSectionsFrom(JsonObject(raw.readiness), evidence, render),
               guidance, evidence, JsonObject(raw.generationConstraints),
               if profile != [] then Some(profile) else None, OptionalText(raw.operatorInstruction),
               direction.Some? || keywords != [])
  }

  function NormalizeLegacy(raw: Brief, render: Json -> string): Normalized {
    var stated := OptionalText(raw.messageDirection);
    var direction := if stated.Some? then stated.value else DEFAULT_DIRECTION;
    var keywords := StringList(raw.keywords, render);
    Normalized(SCHEMA_V1, direction, keywords, Readiness("fallback_only", REQUIRED_EVIDENCE), [FALLBACK_GUIDANCE],
               [Field("message_direction", Str(direction)), Field("keywords", Arr(Texts(keywords))),
                Field("source", Str(LEGACY_SOURCE))],
               [], [], None, OptionalText(raw.operatorInstruction), stated.Some? || keywords != [])
  }

  /** `normalize_content_brief`. */
  function NormalizeContentBrief(raw: Brief, render: Json -> string): Normalized {
    if raw.schemaVersion == Str(SCHEMA_V2) then NormalizeV2(raw, render) else NormalizeLegacy(raw, render)
  }

  // ---------------------------------------------------------------------------
  // Guidance
  // ---------------------------------------------------------------------------

  /** Text with something other than spaces in it. */
  predicate SaysSomething(s: string) {
    exists c :: c in s && !IsSpace(c)
  }

  lemma SaysSomethingIff(s: string)
    ensures SaysSomething(s) <==> !Blank(s)
  {
    BlankIff(s);
  }

  lemma {:induction false} SomeTextIff(items: seq<Json>, render: Json -> string)
    ensures TrimmedTexts(items, render) != []
       <==> exists item :: item in items && SaysSomething(AsText(item, render))
  {
    if items != [] {
      SomeTextIff(items[1..], render);
      SaysSomethingIff(AsText(items[0], render));
      assert items == [items[0]] + items[1..];
    }
  }

  /** Where a brief of either version states its direction and its keywords. */
  function StatedDirection(raw: Brief): Json {
    if raw.schemaVersion == Str("content_brief.v2")
    then (if raw.fallbackGuidance.Obj? then Get(raw.fallbackGuidance.fields, "message_direction") else Null)
    else raw.messageDirection
  }

  function StatedKeywords(raw: Brief): Json {
    if raw.schemaVersion == Str("content_brief.v2")
    then (if raw.fallbackGuidance.Obj? then Get(raw.fallbackGuidance.fields, "keywords") else Null)
    else raw.keywords
  }

  /**
   For either version: guidance counts as present exactly when the direction or some keyword says
   something, and a direction that says nothing is replaced by the default.
   */
  lemma GuidancePresentIff(raw: Brief, render: Json -> string)
    ensures var n, direction := NormalizeContentBrief(raw, render), StatedDirection(raw);
            && (n.fallbackPresent
                <==> || (direction.Str? && SaysSomething(direction.text))
                     || (StatedKeywords(raw).Arr?
                         && exists item :: item in StatedKeywords(raw).items
                                           && SaysSomething(AsText(item, render))))
            && n.messageDirection == if direction.Str? && SaysSomething(direction.text)
                                     then Strip(direction.text) else DEFAULT_DIRECTION
  {
    var direction, keywords := StatedDirection(raw), StatedKeywords(raw);
    if direction.Str? {
      SaysSomethingIff(direction.text);
    }
    if keywords.Arr? {
      SomeTextIff(keywords.items, render);
    }
  }

  // ---------------------------------------------------------------------------
  // The round trip
  // ---------------------------------------------------------------------------

  /** Trimmed, non-blank keywords come back as they are. */
  lemma {:induction false} KeywordsAreStable(items: seq<Json>, render: Json -> string)
    ensures TrimmedTexts(Texts(TrimmedTexts(items, render)), render) == TrimmedTexts(items, render)
  {
    if items != [] {
      KeywordsAreStable(items[1..], render);
      var text, rest := Strip(AsText(items[0], render)), TrimmedTexts(items[1..], render);
      if text == "" {
        assert [] + rest == rest;
      } else {
        StripTwice(AsText(items[0], render));
        assert Texts([text] + rest)[0] == Str(text);
        assert Texts([text] + rest)[1..] == Texts(rest);
      }
    }
  }

  /** A list of supported names that mentions evidence only when there is some passes unfiltered. */
  lemma {:induction false} SupportedNamesPass(names: seq<string>, hasEvidence: bool, render: Json -> string)
    requires forall name :: name in names ==> name in SUPPORTED_AVAILABLE
    requires AUDIENCE_EVIDENCE in names ==> hasEvidence
    ensures Recognised(Texts(names), hasEvidence, render) == names
  {
    if names != [] {
      SupportedNamesPass(names[1..], hasEvidence, render);
      assert Texts(names)[0] == Str(names[0]);
      assert Texts(names)[1..] == Texts(names[1..]);
      assert names[0] in names;
      assert names == [names[0]] + names[1..];
    }
  }

  lemma AnnouncedAreSupported(inputs: Inputs)
    ensures forall name :: name in AnnouncedSections(inputs) ==> name in SUPPORTED_AVAILABLE
    ensures AUDIENCE_EVIDENCE in AnnouncedSections(inputs) <==> EvidenceOf(inputs) != []
  {
    assert AUDIENCE_EVIDENCE[0] == 'a' && HOTEL_PROFILE[0] == 'h' && OPERATOR_INSTRUCTION[0] == 'o';
    assert forall name :: name in ALWAYS_AVAILABLE ==> name in SUPPORTED_AVAILABLE;
    forall name | name in ALWAYS_AVAILABLE ensures name != AUDIENCE_EVIDENCE {
      assert name[0] in "spf";
    }
  }

  lemma ReadinessLookup(level: Json, missing: Json, available: Json)
    ensures (Get([Field("level", level), Field("missing_sections", missing), Field("available_sections", available)],
                 "available_sections") == available)
  {
    var fields := [Field("level", level), Field("missing_sections", missing), Field("available_sections", available)];
    assert "available_sections"[0] == 'a' && "level"[0] == 'l' && "missing_sections"[0] == 'm';
    assert fields[1..][1..] == [fields[2]];
    assert Get([fields[2]], "available_sections") == available;
    assert Get(fields[1..], "available_sections") == available;
  }

  lemma GuidanceLookup(direction: Json, keywords: Json, source: Json)
    ensures var fields := [Field("message_direction", direction), Field("keywords", keywords), Field("source", source)];
            Get(fields, "message_direction") == direction && Get(fields, "keywords") == keywords
  {
    var fields := [Field("message_direction", direction), Field("keywords", keywords), Field("source", source)];
    assert "message_direction"[0] == 'm' && "keywords"[0] == 'k';
    assert fields[1..][0] == fields[1];
  }

  /**
   Normalising a built brief gives back the evidence, the readiness and the announced sections it
   was built with, and the guidance up to trimming and the default direction.
   */
  lemma BuiltBriefComesBack(inputs: Inputs, render: Json -> string)
    ensures var n := NormalizeContentBrief(BuildContentBriefV2(inputs, render), render);
            && n.schemaVersion == SCHEMA_V2
            && n.evidence == EvidenceOf(inputs)
            && n.readiness == ReadinessFor(EvidenceOf(inputs))
            && n.available == AnnouncedSections(inputs)
            && n.messageDirection == (if Blank(inputs.direction) then DEFAULT_DIRECTION else Strip(inputs.direction))
            && n.keywords == TrimmedTexts(Texts(inputs.keywords), render)
            && (n.fallbackPresent <==> !Blank(inputs.direction) || n.keywords != [])
            && n.profile == (if inputs.profile == Some([]) then None else inputs.profile)
            && n.instruction == (if inputs.instruction.Some? && !Blank(inputs.instruction.value)
                                 then Some(Strip(inputs.instruction.value)) else None)
  {
    var brief := BuildContentBriefV2(inputs, render);
    EvidenceReadBack(inputs, brief, render);
    GuidanceReadBack(inputs, brief, render);
    SectionsReadBack(inputs, brief, render);
  }

  lemma EvidenceReadBack(inputs: Inputs, brief: Brief, render: Json -> string)
    requires brief == BuildContentBriefV2(inputs, render)
    ensures SupportedEvidence(JsonObject(brief.audienceEvidence)) == EvidenceOf(inputs)
  {
    EvidenceIsStable(if inputs.evidence.Some? then inputs.evidence.value else []);
  }

  lemma GuidanceReadBack(inputs: Inputs, brief: Brief, render: Json -> string)
    requires brief == BuildContentBriefV2(inputs, render)
    ensures var guidance := JsonObject(brief.fallbackGuidance);
            && Get(guidance, "message_direction") == Str(inputs.direction)
            && (StringList(Get(guidance, "keywords"), render) == TrimmedTexts(Texts(inputs.keywords), render))
  {
    var keywords := TrimmedTexts(Texts(inputs.keywords), render);
    GuidanceLookup(Str(inputs.direction), Arr(Texts(keywords)), Str(FALLBACK_SOURCE));
    KeywordsAreStable(Texts(inputs.keywords), render);
  }

  lemma SectionsReadBack(inputs: Inputs, brief: Brief, render: Json -> string)
    requires brief == BuildContentBriefV2(inputs, render)
    ensures (AvailableSectionsFrom(JsonObject(brief.readiness), EvidenceOf(inputs), render)
             == AnnouncedSections(inputs))
  {
    var readiness := ReadinessFor(EvidenceOf(inputs));
    ReadinessLookup(Str(readiness.level), Arr(Texts(readiness.missing)), Arr(Texts(AnnouncedSections(inputs))));
    AnnouncedAreSupported(inputs);
    SupportedNamesPass(AnnouncedSections(inputs), EvidenceOf(inputs) != [], render);
  }

  /**
   An operator instruction of nothing but spaces is announced and then not there: that is the one
   case in which the announced sections and the normalised instruction disagree.
   */
  lemma InstructionAnnouncedIff(inputs: Inputs, render: Json -> string)
    ensures var n := NormalizeContentBrief(BuildContentBriefV2(inputs, render), render);
            ((OPERATOR_INSTRUCTION in n.available <==> n.instruction.Some?)
             <==> !(inputs.instruction.Some? && inputs.instruction.value != "" && Blank(inputs.instruction.value)))
  {
    BuiltBriefComesBack(inputs, render);
    InstructionAnnounced(inputs);
  }

  lemma InstructionAnnounced(inputs: Inputs)
    ensures (OPERATOR_INSTRUCTION in AnnouncedSections(inputs)
             <==> inputs.instruction.Some? && inputs.instruction.value != "")
  {
    assert AUDIENCE_EVIDENCE[0] == 'a' && HOTEL_PROFILE[0] == 'h' && OPERATOR_INSTRUCTION[0] == 'o';
    forall name | name in ALWAYS_AVAILABLE ensures name != OPERATOR_INSTRUCTION {
      assert name[0] in "spf";
    }
  }
}
