/**
 * `get_platform_prompt`: the prompt text sent to the language model, built from
 * a fixed voice block, the asset type and URL, the extracted page content, a
 * guidance block chosen by asset type, the expected JSON shape and the scoring
 * instructions, in that order.
 */
module PlatformPrompts {
  import opened Text
  import opened Results
  import AssetDetector

  // Guidance blocks, one per asset type (module-level constants of the prompt file).
  const WEBSITE_LOGIC :=
    "\n"
    + "Analyze this as a business website.\n"
    + "\n"
    + "Create sections such as:\n"
    + "- First Impression & Clarity\n"
    + "- Content Quality\n"
    + "- Trust & Credibility\n"
    + "- SEO & Discoverability\n"
    + "- Conversion Readiness\n"
    + "\n"
    + "Focus on:\n"
    + "- Value proposition clarity\n"
    + "- Messaging and copy quality\n"
    + "- CTAs and funnel logic\n"
    + "- SEO basics (structure, intent match)\n"

  const INSTAGRAM_LOGIC :=
    "\n"
    + "Analyze this as an Instagram brand profile.\n"
    + "\n"
    + "Create sections such as:\n"
    + "- Profile Optimization\n"
    + "- Content Strategy\n"
    + "- Engagement & Community\n"
    + "- Growth & Discoverability\n"
    + "- Conversion Readiness\n"
    + "\n"
    + "Focus on:\n"
    + "- Bio clarity and keywords\n"
    + "- Reel vs post mix\n"
    + "- Engagement quality\n"
    + "- CTA usage (bio link, DMs)\n"

  const LINKEDIN_PROFILE_LOGIC :=
    "\n"
    + "Analyze this as a personal LinkedIn profile.\n"
    + "\n"
    + "Create sections such as:\n"
    + "- Positioning & Headline\n"
    + "- Content & Thought Leadership\n"
    + "- Credibility Signals\n"
    + "- Network & Visibility\n"
    + "- Inbound Opportunity Readiness\n"
    + "\n"
    + "Focus on:\n"
    + "- Professional clarity\n"
    + "- Authority building\n"
    + "- Consistency of posting\n"

  const LINKEDIN_COMPANY_LOGIC :=
    "\n"
    + "Analyze this as a LinkedIn company page.\n"
    + "\n"
    + "Create sections such as:\n"
    + "- Brand Positioning\n"
    + "- Content Strategy\n"
    + "- Employer & Brand Trust\n"
    + "- Visibility & Reach\n"
    + "- Lead & Interest Generation\n"

  const X_LOGIC :=
    "\n"
    + "Analyze this as an X (Twitter) profile.\n"
    + "\n"
    + "Create sections such as:\n"
    + "- Voice & Positioning\n"
    + "- Content & Opinions\n"
    + "- Engagement Strategy\n"
    + "- Network Quality\n"
    + "- Influence & Reach\n"
    + "\n"
    + "Focus on:\n"
    + "- Thought leadership\n"
    + "- Reply behavior\n"
    + "- Content consistency\n"

  const YOUTUBE_LOGIC :=
    "\n"
    + "Analyze this as a YouTube channel.\n"
    + "\n"
    + "Create sections such as:\n"
    + "- Channel Positioning\n"
    + "- Content Quality & Hooks\n"
    + "- Consistency & Format\n"
    + "- Discoverability\n"
    + "- Audience Conversion\n"
    + "\n"
    + "Focus on:\n"
    + "- Thumbnails and titles\n"
    + "- Retention logic\n"
    + "- CTA usage\n"

  const REDDIT_PROFILE_LOGIC :=
    "\n"
    + "Analyze this as a Reddit user profile.\n"
    + "\n"
    + "Create sections such as:\n"
    + "- Authenticity & Behavior\n"
    + "- Contribution Quality\n"
    + "- Community Interaction\n"
    + "- Trust Signals\n"
    + "- Promotion Risk\n"

  const REDDIT_COMMUNITY_LOGIC :=
    "\n"
    + "Analyze this as a Reddit community (subreddit).\n"
    + "\n"
    + "Create sections such as:\n"
    + "- Community Purpose\n"
    + "- Engagement Health\n"
    + "- Content Quality\n"
    + "- Moderation Quality\n"
    + "- Growth Potential\n"

  /** The voice block every prompt opens with. */
  const BASE_VOICE :=
    "\n"
    + "You are a senior marketing analyst advising a real business owner.\n"
    + "\n"
    + "Speak like a human consultant:\n"
    + "- Calm\n"
    + "- Honest\n"
    + "- Practical\n"
    + "- Slightly opinionated\n"
    + "\n"
    + "No emojis. No hype. No generic AI tone.\n"

  /**
   * The JSON document shape the model is asked to return (the `{{`/`}}` of the
   * f-string unescaped), cut so that every quoted key is a piece of its own: the
   * keys stand at the odd indexes.
   */
  const SHAPE_PARTS := [
    "{\n  ", "\"overview\"",
    ": \"string\",\n  ", "\"target_audience\"",
    ": \"string\",\n  ", "\"sections\"",
    ": [\n    {\n      ", "\"id\"",
    ": \"string\",\n      ", "\"title\"",
    ": \"string\",\n      ", "\"insights\"",
    ": [\"string\"]\n    }\n  ],\n  ", "\"verdicts\"",
    ": {\n    ", "\"marketing\"",
    ": \"string\",\n    ", "\"strategic\"",
    ": \"string\"\n  },\n  ", "\"score\"",
    ": {\n    ", "\"value\"",
    ": number,\n    ", "\"reasoning\"",
    ": \"string\"\n  }\n}"
  ]

  const JSON_SHAPE := Join(SHAPE_PARTS)

  /** The constant text of `scoring_instructions()`. */
  const SCORING_INSTRUCTIONS :=
    "\n"
    + "Score based on:\n"
    + "- Clarity of intent\n"
    + "- Trust & credibility\n"
    + "- Positioning strength\n"
    + "- Conversion readiness\n"
    + "\n"
    + "Use realistic benchmarks:\n"
    + "9\U{2013}10: Exceptional\n"
    + "7\U{2013}8.5: Strong but improvable\n"
    + "5\U{2013}6.5: Average\n"
    + "Below 5: Weak\n"
    + "\n"
    + "Return:\n"
    + "- numeric score (one decimal)\n"
    + "- short reasoning\n"

  /** The keys of the `platform_logic` dictionary. */
  const TABLE_KEYS := {"website", "instagram_profile", "linkedin_profile", "linkedin_company",
                       "x_profile", "youtube_channel", "reddit_profile", "reddit_community"}

  /** The eight guidance blocks. */
  const BLOCKS := {WEBSITE_LOGIC, INSTAGRAM_LOGIC, LINKEDIN_PROFILE_LOGIC, LINKEDIN_COMPANY_LOGIC,
                   X_LOGIC, YOUTUBE_LOGIC, REDDIT_PROFILE_LOGIC, REDDIT_COMMUNITY_LOGIC}

  /** The `platform_logic` dictionary: the guidance block stored under an asset-type tag, if any. */
  function LogicTable(assetType: string): (r: Option<string>)
    ensures r.Some? <==> assetType in TABLE_KEYS
    ensures r.Some? ==> r.value in BLOCKS
  {
    match assetType
    case "website" => Some(WEBSITE_LOGIC)
    case "instagram_profile" => Some(INSTAGRAM_LOGIC)
    case "linkedin_profile" => Some(LINKEDIN_PROFILE_LOGIC)
    case "linkedin_company" => Some(LINKEDIN_COMPANY_LOGIC)
    case "x_profile" => Some(X_LOGIC)
    case "youtube_channel" => Some(YOUTUBE_LOGIC)
    case "reddit_profile" => Some(REDDIT_PROFILE_LOGIC)
    case "reddit_community" => Some(REDDIT_COMMUNITY_LOGIC)
    case _ => None
  }

  /** `dict.get(asset_type, WEBSITE_LOGIC)`. */
  function PlatformLogic(assetType: string): (r: string)
    ensures r in BLOCKS
    ensures assetType !in TABLE_KEYS ==> r == WEBSITE_LOGIC
  {
    match LogicTable(assetType)
    case Some(block) => block
    case None => WEBSITE_LOGIC
  }

  /** The two lines naming the asset: `Asset type: {asset_type}` and `URL: {url}`. */
  function AssetLine(assetType: string, url: string): string
  {
    "Asset type: " + assetType + "\nURL: " + url
  }

  /**
   * The pieces of the f-string, in order: its literal text between the
   * placeholders and the values put in the placeholders.
   */
  function PromptParts(assetType: string, url: string, content: string): seq<string>
  {
    [ "\n", BASE_VOICE,
      "\n\n", AssetLine(assetType, url),
      "\n\nExtracted content:\n", content,
      "\n\n", PlatformLogic(assetType),
      "\n\nReturn STRICT JSON in this shape:\n", JSON_SHAPE,
      "\n\n", SCORING_INSTRUCTIONS,
      "\n" ]
  }

  /** `get_platform_prompt(asset_type, url, content)`. */
  function GetPlatformPrompt(assetType: string, url: string, content: string): string
  {
    Join(PromptParts(assetType, url, content))
  }

  /**
   * The prompt starts with a newline, the voice block and the asset lines, and
   * ends with the scoring instructions and a newline.
   */
  lemma PromptFrame(assetType: string, url: string, content: string)
    ensures IsPrefix("\n" + BASE_VOICE + "\n\n" + AssetLine(assetType, url), GetPlatformPrompt(assetType, url, content))
    ensures IsSuffix("\n\n" + SCORING_INSTRUCTIONS + "\n", GetPlatformPrompt(assetType, url, content))
  {
    PromptEnds(PromptParts(assetType, url, content));
  }

  /** The first four and the last three pieces of the prompt make its head and its tail. */
  lemma PromptEnds(parts: seq<string>)
    requires |parts| == 13
    ensures IsPrefix(parts[0] + parts[1] + parts[2] + parts[3], Join(parts))
    ensures IsSuffix(parts[10] + parts[11] + parts[12], Join(parts))
  {
    assert parts == parts[..4] + parts[4..];
    JoinAppend(parts[..4], parts[4..]);
    JoinFirstFour(parts);
    assert parts == parts[..10] + parts[10..];
    JoinAppend(parts[..10], parts[10..]);
    JoinLastThree(parts[10..]);
  }

  lemma JoinFirstFour(parts: seq<string>)
    requires |parts| >= 4
    ensures Join(parts[..4]) == parts[0] + parts[1] + parts[2] + parts[3]
  {
    var a := parts[..4];
    assert a[..3][..2][..1] == [parts[0]];
    JoinOne(parts[0]);
    assert Join(a[..3][..2]) == parts[0] + parts[1];
    assert Join(a[..3]) == parts[0] + parts[1] + parts[2];
  }

  lemma JoinLastThree(t: seq<string>)
    requires |t| == 3
    ensures Join(t) == t[0] + t[1] + t[2]
  {
    assert t[..2][..1] == [t[0]];
    JoinOne(t[0]);
  }

  /**
   * The six blocks of the prompt appear in it in the fixed order voice, asset
   * type and URL, content, guidance block, JSON shape, scoring instructions.
   */
  lemma PromptSegmentsInOrder(assetType: string, url: string, content: string)
    ensures InOrder(GetPlatformPrompt(assetType, url, content),
      [BASE_VOICE, AssetLine(assetType, url), content, PlatformLogic(assetType), JSON_SHAPE, SCORING_INSTRUCTIONS])
  {
    var parts := PromptParts(assetType, url, content);
    JoinPickInOrder(parts, [1, 3, 5, 7, 9, 11]);
    assert Pick(parts, [1, 3, 5, 7, 9, 11])
      == [BASE_VOICE, AssetLine(assetType, url), content, PlatformLogic(assetType), JSON_SHAPE, SCORING_INSTRUCTIONS];
  }

  /** The prompt names the asset type and the URL verbatim, whichever guidance block was chosen. */
  lemma PromptNamesAsset(assetType: string, url: string, content: string)
    ensures Contains(GetPlatformPrompt(assetType, url, content), "Asset type: " + assetType + "\nURL: " + url)
  {
    var parts := PromptParts(assetType, url, content);
    assert parts[3] == AssetLine(assetType, url);
    JoinContainsPart(parts, 3);
  }

  /** The prompt holds the content verbatim, right after the `Extracted content:` line. */
  lemma PromptHoldsContent(assetType: string, url: string, content: string)
    ensures Contains(GetPlatformPrompt(assetType, url, content), "\n\nExtracted content:\n" + content)
  {
    var parts := PromptParts(assetType, url, content);
    JoinSegment(parts, 4, 6);
    assert parts[4..6] == ["\n\nExtracted content:\n"] + [content];
    JoinAppend(["\n\nExtracted content:\n"], [content]);
    JoinOne("\n\nExtracted content:\n");
    JoinOne(content);
  }

  /** The prompt holds the guidance block `PlatformLogic` chose for the asset type. */
  lemma PromptHoldsLogic(assetType: string, url: string, content: string)
    ensures Contains(GetPlatformPrompt(assetType, url, content), PlatformLogic(assetType))
  {
    var parts := PromptParts(assetType, url, content);
    assert parts[7] == PlatformLogic(assetType);
    JoinContainsPart(parts, 7);
  }

  /** Each of the eight keys selects its own block: no two keys share one. */
  lemma LogicBlocksDistinct(a: string, b: string)
    requires LogicTable(a).Some? && LogicTable(b).Some? && a != b
    ensures PlatformLogic(a) != PlatformLogic(b)
  {
    BlockLengths();
  }

  /** The eight guidance blocks have eight different lengths. */
  lemma BlockLengths()
    ensures |WEBSITE_LOGIC| == 310 && |INSTAGRAM_LOGIC| == 294 && |LINKEDIN_PROFILE_LOGIC| == 285
    ensures |LINKEDIN_COMPANY_LOGIC| == 182 && |X_LOGIC| == 241 && |YOUTUBE_LOGIC| == 238
    ensures |REDDIT_PROFILE_LOGIC| == 172 && |REDDIT_COMMUNITY_LOGIC| == 173
  {
  }

  /** A tag outside the table, such as the classifier's `"unknown"`, falls back to the website block. */
  lemma UnknownFallsBack()
    ensures PlatformLogic("unknown") == WEBSITE_LOGIC
  {
  }

  /** The table has a block for exactly the classifier tags other than `unknown`. */
  lemma TableCoversDetectorTags(t: AssetDetector.AssetType)
    ensures LogicTable(t.Tag()).Some? <==> t != AssetDetector.Unknown
  {
  }

  /**
   * The JSON shape asks for `overview`, `target_audience`, `sections`,
   * `verdicts` and a `score` object holding `value` and then `reasoning`, in
   * this order.
   */
  lemma ShapeKeysInOrder()
    ensures InOrder(JSON_SHAPE, ["\"overview\"", "\"target_audience\"", "\"sections\"", "\"verdicts\"",
                                 "\"score\"", "\"value\"", "\"reasoning\""])
  {
    var idx: seq<nat> := [1, 3, 5, 13, 19, 21, 23];
    var keys := ["\"overview\"", "\"target_audience\"", "\"sections\"", "\"verdicts\"",
                 "\"score\"", "\"value\"", "\"reasoning\""];
    var parts := SHAPE_PARTS;
    assert parts[1] == keys[0] && parts[3] == keys[1] && parts[5] == keys[2] && parts[13] == keys[3];
    assert parts[19] == keys[4] && parts[21] == keys[5] && parts[23] == keys[6];
    PickKeys(parts, idx, keys);
    JoinPickInOrder(parts, idx);
  }

  lemma PickKeys(parts: seq<string>, idx: seq<nat>, keys: seq<string>)
    requires |idx| == |keys| && forall k :: 0 <= k < |idx| ==> idx[k] < |parts| && parts[idx[k]] == keys[k]
    ensures Pick(parts, idx) == keys
  {
  }

  lemma ShapePartsLackY()
    ensures forall k :: 0 <= k < |SHAPE_PARTS| ==> 'y' !in SHAPE_PARTS[k]
  {
  }

  /** The JSON shape has no `asset_type` key: the letter `y` never occurs in it. */
  lemma ShapeLacksAssetType()
    ensures !Contains(JSON_SHAPE, "\"asset_type\"")
  {
    ShapePartsLackY();
    CharNotInJoin(SHAPE_PARTS, 'y');
    assert 'y' in "\"asset_type\"";
    MissingCharNotContained(JSON_SHAPE, "\"asset_type\"", 'y');
  }
}
