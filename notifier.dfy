/** The pure parts of sending one post to the chat webhook: the accent colour
    fallback, the tag-string truncation, the message payload and the webhook
    URL with optional thread routing. The HTTP POST itself is not modelled:
    its outcome is an input of the check cycle. */
module Notifier {
  import opened Wrappers
  import opened Records

  /** A 24-bit RGB colour, as `parseInt("rrggbb", 16)` yields from a swatch's hex code. */
  type Rgb = c: int | 0 <= c < 0x100_0000

  const DefaultColor: Rgb := 0x0099ff

  /** The two swatches of a sampled palette the bot looks at. */
  datatype Palette = Palette(vibrant: Option<Rgb>, muted: Option<Rgb>)

  /** The accent colour. `sampled` is None when sampling the image failed. The
      vibrant swatch wins, then the muted one, then the default colour. */
  function EmbedColor(sampled: Option<Palette>): (color: Rgb)
    ensures sampled.Some? && sampled.value.vibrant.Some? ==> color == sampled.value.vibrant.value
    ensures sampled.Some? && sampled.value.vibrant.None? && sampled.value.muted.Some? ==>
              color == sampled.value.muted.value
    ensures sampled.None? || (sampled.value.vibrant.None? && sampled.value.muted.None?) ==>
              color == DefaultColor
  {
    match sampled
    case None => DefaultColor
    case Some(palette) =>
      if palette.vibrant.Some? then palette.vibrant.value
      else if palette.muted.Some? then palette.muted.value
      else DefaultColor
  }

  const MaxTagsLength: nat := 1024
  const KeptTagsLength: nat := 1020
  const Ellipsis: string := "..."

  /** The tag string shortened for display. A string longer than 1024 keeps its
      first 1020 characters and gains "...", 1023 characters in all. */
  function TruncateTags(tags: string): (shown: string)
    ensures |shown| <= MaxTagsLength
    ensures shown == tags <==> |tags| <= MaxTagsLength
    ensures |tags| > MaxTagsLength ==>
              |shown| == 1023 &&
              shown[..KeptTagsLength] == tags[..KeptTagsLength] &&
              shown[KeptTagsLength..] == Ellipsis
  {
    if |tags| > MaxTagsLength then tags[..KeptTagsLength] + Ellipsis else tags
  }

  /** Shortening a shown tag string again changes nothing. */
  lemma TruncateIdempotent(tags: string)
    ensures TruncateTags(TruncateTags(tags)) == TruncateTags(tags)
  {
  }

  const ThreadParameter: string := "?thread_id="

  /** Whether messages go to a thread: only a non-empty string thread ID has a
      positive `length`; a numeric thread ID has none and is ignored. */
  predicate RoutesToThread(threadId: Setting) {
    threadId.Text? && |threadId.text| > 0
  }

  /** The URL the payload is posted to. */
  function WebhookUrl(webhookUrl: string, threadId: Setting): (url: string)
    ensures |webhookUrl| <= |url| && url[..|webhookUrl|] == webhookUrl
    ensures |url| > |webhookUrl| <==> RoutesToThread(threadId)
  {
    if RoutesToThread(threadId) then webhookUrl + ThreadParameter + threadId.text else webhookUrl
  }

  /** The thread a posted-to URL routes to, read back from the query string. */
  function ThreadOf(webhookUrl: string, url: string): Option<string> {
    var n := |webhookUrl| + |ThreadParameter|;
    if n < |url| && url[..n] == webhookUrl + ThreadParameter then Some(url[n..]) else None
  }

  /** The URL routes to exactly the configured thread, and to none when no
      non-empty thread ID is configured. */
  lemma ThreadRoundTrip(webhookUrl: string, threadId: Setting)
    ensures ThreadOf(webhookUrl, WebhookUrl(webhookUrl, threadId))
            == if RoutesToThread(threadId) then Some(threadId.text) else None
  {
  }

  const Username: string := "Afrodita Art"
  const TitlePrefix: string := "Новый арт по тегу: "
  const PostPageUrl: string := "https://gelbooru.com/index.php?page=post&s=view&id="
  const RatingFieldName: string := "Рейтинг"
  const FooterText: string := "Отправлено с Gelbooru"
  const FooterIconUrl: string :=
    "https://media.discordapp.net/attachments/1388583647447224434/1404899966383685722/gelbooru-logo.png"

  datatype Field = Field(name: string, value: string, inline: bool)

  datatype Embed = Embed(
    title: string,
    url: string,
    color: Rgb,
    imageUrl: string,
    fields: seq<Field>,
    footerText: string,
    footerIconUrl: string,
    timestamp: string)

  /** The JSON body posted to the webhook. */
  datatype Payload = Payload(username: string, avatarUrl: string, embeds: seq<Embed>)

  /** The post ID a post-page link points at. */
  function PostIdOfLink(url: string): Option<nat> {
    if PostPageUrl <= url then Some(ParseDecimal(url[|PostPageUrl|..])) else None
  }

  /** The payload for one post of one search; `now` is the ISO-8601 time of sending. */
  function BuildPayload(post: Post, search: SearchConfig, color: Rgb, avatarUrl: string, now: string): (p: Payload)
    ensures |p.embeds| == 1
    ensures PostIdOfLink(p.embeds[0].url) == Some(post.id)
    ensures TitlePrefix <= p.embeds[0].title && p.embeds[0].title[|TitlePrefix|..] == search.tags
    ensures p.embeds[0].imageUrl == post.fileUrl && p.embeds[0].color == color
    ensures p.embeds[0].fields == [Field(RatingFieldName, post.rating, false)]
    ensures p.username == Username && p.avatarUrl == avatarUrl
    ensures p.embeds[0].footerText == FooterText && p.embeds[0].footerIconUrl == FooterIconUrl
    ensures p.embeds[0].timestamp == now
  {
    var link := PostPageUrl + IdString(post.id);
    assert link[|PostPageUrl|..] == IdString(post.id);
    ParseIdString(post.id);
    var embed := Embed(
      TitlePrefix + search.tags,
      link,
      color,
      post.fileUrl,
      [Field(RatingFieldName, post.rating, false)],
      FooterText,
      FooterIconUrl,
      now);
    assert embed.title[|TitlePrefix|..] == search.tags;
    Payload(Username, avatarUrl, [embed])
  }

  /** The truncated tag string is computed but never put into the payload: a
      post's tags do not affect what is sent. */
  lemma TagsNotSent(post: Post, tags: string, search: SearchConfig, color: Rgb, avatarUrl: string, now: string)
    ensures BuildPayload(post.(tags := tags), search, color, avatarUrl, now)
            == BuildPayload(post, search, color, avatarUrl, now)
  {
  }
}
