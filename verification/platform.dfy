/**
 * Platform detection: the source site of a media URL, read off fixed host
 * substrings of the lower-cased URL.
 */
module Platform {
  import opened Text

  /** The number of rules the detector tests before giving up. */
  const RuleCount := 13

  /** The host substrings of rule `i`, any of which selects it. */
  function Needles(i: nat): seq<string>
    requires i < RuleCount
  {
    match i
    case 0 => ["youtube.com", "youtu.be"]
    case 1 => ["instagram.com"]
    case 2 => ["tiktok.com"]
    case 3 => ["twitter.com", "x.com"]
    case 4 => ["facebook.com", "fb.watch"]
    case 5 => ["spotify.com"]
    case 6 => ["soundcloud.com"]
    case 7 => ["vimeo.com"]
    case 8 => ["dailymotion.com"]
    case 9 => ["twitch.tv"]
    case 10 => ["reddit.com"]
    case 11 => ["pinterest.com"]
    case _ => ["snapchat.com"]
  }

  /** The tag rule `i` gives; past the last rule, `Unknown`. */
  function Tag(i: nat): string {
    match i
    case 0 => "youtube"
    case 1 => "instagram"
    case 2 => "tiktok"
    case 3 => "twitter"
    case 4 => "facebook"
    case 5 => "spotify"
    case 6 => "soundcloud"
    case 7 => "vimeo"
    case 8 => "dailymotion"
    case 9 => "twitch"
    case 10 => "reddit"
    case 11 => "pinterest"
    case 12 => "snapchat"
    case _ => Unknown
  }

  /** The tag of a URL that no rule matches. */
  const Unknown := "unknown"

  /** The fourteen tags the detector can return. */
  const Tags: set<string> := {
    "youtube", "instagram", "tiktok", "twitter", "facebook", "spotify", "soundcloud",
    "vimeo", "dailymotion", "twitch", "reddit", "pinterest", "snapchat", "unknown"
  }

  // ---------------------------------------------------------------------------
  // The detector: the first rule of the table that selects the URL.

  /** Some needle of the list occurs in `u`. */
  predicate AnyOccurs(u: string, needles: seq<string>)
    decreases |needles|
  {
    needles != [] && (Contains(u, needles[0]) || AnyOccurs(u, needles[1..]))
  }

  /** Rule `i` selects `u`. */
  predicate Matches(u: string, i: nat)
    requires i < RuleCount
  {
    AnyOccurs(u, Needles(i))
  }

  /** The first rule from `i` on that selects `u`, or `RuleCount` when none does. */
  function FirstRule(u: string, i: nat): (r: nat)
    requires i <= RuleCount
    ensures i <= r <= RuleCount
    ensures r < RuleCount ==> Matches(u, r)
    ensures forall j :: i <= j < r ==> !Matches(u, j)
    decreases RuleCount - i
  {
    if i == RuleCount then RuleCount
    else if Matches(u, i) then i
    else FirstRule(u, i + 1)
  }

  /**
   * `detectPlatform`: the rules are tried in order on the lower-cased URL
   * and the first that selects it gives the tag; `unknown` when none does.
   */
  function DetectPlatform(url: string): (r: string)
    ensures r in Tags
  {
    Tag(FirstRule(ToLower(url), 0))
  }

  /** Distinct rules give distinct tags, and no rule gives `Unknown`. */
  lemma TagInjective(a: nat, b: nat)
    requires a <= RuleCount && b <= RuleCount && a != b
    ensures Tag(a) != Tag(b)
  {
  }

  // ---------------------------------------------------------------------------
  // What the detector promises

  /**
   * The detector returns rule `k`'s tag exactly when one of rule `k`'s
   * substrings occurs in the lower-cased URL and no earlier rule's does.
   */
  lemma DetectPlatformFirstRuleWins(url: string, k: nat)
    requires k < RuleCount
    ensures DetectPlatform(url) == Tag(k) <==>
      Matches(ToLower(url), k) && forall j :: 0 <= j < k ==> !Matches(ToLower(url), j)
  {
    var r := FirstRule(ToLower(url), 0);
    if r != k {
      TagInjective(r, k);
    }
  }

  /** The detector answers `unknown` exactly when no listed substring occurs. */
  lemma DetectPlatformUnknown(url: string)
    ensures DetectPlatform(url) == Unknown <==> forall j :: 0 <= j < RuleCount ==> !Matches(ToLower(url), j)
  {
    var r := FirstRule(ToLower(url), 0);
    if r != RuleCount {
      TagInjective(r, RuleCount);
    }
  }

  /** Lower-casing the URL first changes nothing: the detector ignores ASCII case. */
  lemma DetectPlatformCaseInsensitive(url: string)
    ensures DetectPlatform(ToLower(url)) == DetectPlatform(url)
  {
    ToLowerIdempotent(url);
  }

  /** Any URL naming youtube.com or youtu.be, in any case, is a YouTube URL. */
  lemma DetectPlatformYouTube(url: string)
    requires Contains(ToLower(url), "youtube.com") || Contains(ToLower(url), "youtu.be")
    ensures DetectPlatform(url) == "youtube"
  {
    assert Matches(ToLower(url), 0);
  }

  /**
   * The "x.com" test matches any host ending in "x.com", so a URL of another
   * site whose name ends in "x" is tagged as Twitter.
   */
  lemma DetectPlatformXComSuffix(pre: string, post: string)
    requires forall j :: 0 <= j < 3 ==> !Matches(ToLower(pre + "x.com" + post), j)
    ensures DetectPlatform(pre + "x.com" + post) == "twitter"
  {
    var url := pre + "x.com" + post;
    var u := ToLower(url);
    assert u == ToLower(pre) + "x.com" + ToLower(post);
    ContainsConcat(ToLower(pre), "x.com", "x.com");
    assert Contains("x.com", "x.com");
    ContainsConcat(ToLower(pre) + "x.com", ToLower(post), "x.com");
    assert Matches(u, 3);
    DetectPlatformFirstRuleWins(url, 3);
  }
}
