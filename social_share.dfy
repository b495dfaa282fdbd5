/** The share texts of src/components/ui/social-share.tsx: the text built from a title, a
    description and hashtags, and the share link each platform is given. */
module SocialShare {
  import opened Text
  import opened Lists

  /** `shareText`: the title, followed by " - " and the description when there is one. */
  function ShareText(title: string, description: string): (r: string)
    ensures description == "" ==> r == title
    ensures description != "" ==> r == title + " - " + description
  {
    if description != "" then title + " - " + description else title
  }

  /** `#${tag}`. */
  function Hashtag(tag: string): (r: string)
    ensures |r| == |tag| + 1 && r[0] == '#' && r[1..] == tag
  {
    "#" + tag
  }

  /** `hashtagString`: each tag prefixed with `#`, joined by single spaces; empty without tags. */
  function HashtagString(hashtags: seq<string>): (r: string)
    ensures hashtags == [] <==> r == []
    ensures hashtags != [] ==> r[0] == '#'
  {
    if |hashtags| > 0 then
      var tags := Map(hashtags, Hashtag);
      JoinStartsWithFirst(tags, " ");
      Join(tags, " ")
    else ""
  }

  /** A join starts with its first piece. */
  lemma JoinStartsWithFirst(pieces: seq<string>, sep: string)
    requires |pieces| > 0
    ensures pieces[0] <= Join(pieces, sep)
  {
  }

  /** `fullText`: the share text and the hashtag string, separated by a space, trimmed. */
  function FullText(title: string, description: string, hashtags: seq<string>): (r: string)
    ensures r == [] || (!IsWhitespace(r[0]) && !IsWhitespace(r[|r| - 1]))
  {
    Trim(ShareText(title, description) + " " + HashtagString(hashtags))
  }

  /** Without hashtags the separating space is trimmed away: the full text is the share text,
      trimmed, with no trailing space. */
  lemma FullTextWithoutHashtags(title: string, description: string)
    ensures FullText(title, description, []) == Trim(ShareText(title, description))
  {
    var text := ShareText(title, description);
    assert text + " " + HashtagString([]) == text + " ";
    TrimIgnoresTrailingSpace(text);
  }

  /** The hashtag string splits on spaces back into the hashtags, as long as no tag contains a
      space. */
  lemma HashtagsSplitBack(hashtags: seq<string>)
    requires hashtags != []
    requires forall i :: 0 <= i < |hashtags| ==> ' ' !in hashtags[i]
    ensures Split(HashtagString(hashtags), ' ') == Map(hashtags, Hashtag)
  {
    var tags := Map(hashtags, Hashtag);
    forall i | 0 <= i < |tags| ensures ' ' !in tags[i] {
      assert tags[i] == "#" + hashtags[i];
    }
    JoinSplit(tags, ' ');
  }

  /** With two hashtags the text ends in `#a #b`, one space after the share text. */
  lemma TwoHashtags(a: string, b: string)
    ensures HashtagString([a, b]) == "#" + a + " #" + b
  {
    var tags := Map([a, b], Hashtag);
    assert tags == ["#" + a, "#" + b];
    assert Join(tags[1..], " ") == "#" + b by { assert tags[1..] == ["#" + b]; }
    assert Join(tags, " ") == ("#" + a) + " " + ("#" + b);
    assert ("#" + a) + " " + ("#" + b) == "#" + a + " #" + b;
  }

  /** A trailing space makes no difference to `trim`. */
  lemma TrimIgnoresTrailingSpace(s: string)
    ensures Trim(s + " ") == Trim(s)
  {
    DropWhitespaceAppendSpace(s);
    var a := TrimStart(s);
    if a != [] {
      assert (a + " ")[..|a|] == a;
    }
  }

  /** Dropping the leading whitespace of `s` followed by a space. */
  lemma {:induction false} DropWhitespaceAppendSpace(s: string)
    ensures DropWhitespace(s + " ") == if DropWhitespace(s) == [] then [] else DropWhitespace(s) + " "
  {
    if s == [] {
      assert s + " " == " ";
      assert DropWhitespace(" ") == DropWhitespace([]);
    } else if IsWhitespace(s[0]) {
      assert (s + " ")[0] == s[0];
      assert (s + " ")[1..] == s[1..] + " ";
      assert DropWhitespace(s + " ") == DropWhitespace(s[1..] + " ");
      assert DropWhitespace(s) == DropWhitespace(s[1..]);
      DropWhitespaceAppendSpace(s[1..]);
    } else {
      assert (s + " ")[0] == s[0];
    }
  }

  datatype Platform = Facebook | Twitter | LinkedIn | WhatsApp

  /** The host of each platform's share page. */
  function Host(platform: Platform): string {
    match platform
    case Facebook => "www.facebook.com"
    case Twitter => "twitter.com"
    case LinkedIn => "www.linkedin.com"
    case WhatsApp => "wa.me"
  }

  /** The path of each platform's share page, up to and including the first query
      parameter's `=`. */
  function SharePath(platform: Platform): string {
    match platform
    case Facebook => "/sharer/sharer.php?u="
    case Twitter => "/intent/tweet?text="
    case LinkedIn => "/sharing/share-offsite/?url="
    case WhatsApp => "/?text="
  }

  /** The address of each platform's share page. */
  function ShareEndpoint(platform: Platform): string {
    "https://" + Host(platform) + SharePath(platform)
  }

  /** `shareUrls[platform]`; `encode` is the browser's `encodeURIComponent`. Every link opens
      its platform's share page. After it, Facebook carries the page address and the full text as
      the quote, Twitter the full text and the page address, LinkedIn the page address, the title
      and the description, and WhatsApp the full text, a space and the page address as its one
      parameter; every parameter is encoded. */
  function ShareUrl(platform: Platform, title: string, description: string, url: string,
                    hashtags: seq<string>, encode: string -> string): (r: string)
    ensures ShareEndpoint(platform) <= r
    ensures platform == Facebook ==>
              r[|ShareEndpoint(Facebook)|..] ==
              encode(url) + "&quote=" + encode(FullText(title, description, hashtags))
    ensures platform == Twitter ==>
              r[|ShareEndpoint(Twitter)|..] ==
              encode(FullText(title, description, hashtags)) + "&url=" + encode(url)
    ensures platform == LinkedIn ==>
              r[|ShareEndpoint(LinkedIn)|..] ==
              encode(url) + "&title=" + encode(title) + "&summary=" + encode(description)
    ensures platform == WhatsApp ==>
              r[|ShareEndpoint(WhatsApp)|..] == encode(FullText(title, description, hashtags) + " " + url)
  {
    var fullText := FullText(title, description, hashtags);
    var endpoint := ShareEndpoint(platform);
    var parameters := match platform
      case Facebook => encode(url) + "&quote=" + encode(fullText)
      case Twitter => encode(fullText) + "&url=" + encode(url)
      case LinkedIn => encode(url) + "&title=" + encode(title) + "&summary=" + encode(description)
      case WhatsApp => encode(fullText + " " + url);
    assert (endpoint + parameters)[|endpoint|..] == parameters;
    endpoint + parameters
  }

  /** Two different platforms never get the same link, whatever the texts and the address. */
  lemma ShareUrlsDistinct(p: Platform, q: Platform, title: string, description: string, url: string,
                          hashtags: seq<string>, encode: string -> string)
    requires p != q
    ensures ShareUrl(p, title, description, url, hashtags, encode) != ShareUrl(q, title, description, url, hashtags, encode)
  {
    var rp := ShareUrl(p, title, description, url, hashtags, encode);
    var rq := ShareUrl(q, title, description, url, hashtags, encode);
    EndpointMark(p);
    EndpointMark(q);
    PrefixesDiffer(ShareEndpoint(p), ShareEndpoint(q), rp, rq, 12);
  }

  /** The thirteenth character of each endpoint, the fifth of its host, tells the platforms
      apart: `f`, `t`, `l`, `e`. */
  lemma EndpointMark(platform: Platform)
    ensures |ShareEndpoint(platform)| > 12
    ensures ShareEndpoint(platform)[12] == match platform
      case Facebook => 'f' case Twitter => 't' case LinkedIn => 'l' case WhatsApp => 'e'
  {
    var h := Host(platform);
    assert |h| > 4 && h[4] == match platform
      case Facebook => 'f' case Twitter => 't' case LinkedIn => 'l' case WhatsApp => 'e';
    assert ShareEndpoint(platform)[12] == h[4];
  }

  /** Strings that start with prefixes differing at one position differ. */
  lemma PrefixesDiffer(a: string, b: string, r1: string, r2: string, i: nat)
    requires a <= r1 && b <= r2
    requires i < |a| && i < |b| && a[i] != b[i]
    ensures r1 != r2
  {
    assert r1[i] == a[i] && r2[i] == b[i];
  }

  /** The LinkedIn link ignores the hashtags; the other three see the title, description and
      hashtags only through the full text. */
  lemma LinksDependOnFullText(platform: Platform, t1: string, d1: string, h1: seq<string>,
                              t2: string, d2: string, h2: seq<string>, url: string, encode: string -> string)
    ensures ShareUrl(LinkedIn, t1, d1, url, h1, encode) == ShareUrl(LinkedIn, t1, d1, url, h2, encode)
    ensures platform != LinkedIn && FullText(t1, d1, h1) == FullText(t2, d2, h2) ==>
              ShareUrl(platform, t1, d1, url, h1, encode) == ShareUrl(platform, t2, d2, url, h2, encode)
  {
  }
}
