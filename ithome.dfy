/**
 * api/handlers/ithome_handler.py: the IT之家 handler of the handler
 * package, with its own three-step image generator and its text layout.
 */
module ItHomeHandler {
  import opened Wrappers
  import opened PyText
  import opened Models
  import opened Mixins
  import opened BaseHandler
  import opened Handlers

  /** The handler as it registers itself. */
  const ItHome: Handler := Handler("ithome", ["it之家", "IT之家", "it", "IT"])

  /** The data shown with the first k items, each index and url filled (`#`). */
  function Shown(data: NewsData, k: int): NewsData {
    Processed(data, k, true, true, "#")
  }

  /** Cutting shown data further is showing fewer items of the original. */
  lemma ShownPrefix(data: NewsData, a: int, b: int)
    requires 0 < b <= a
    ensures Shown(data, a).(items := Prefix(Shown(data, a).items, b)) == Shown(data, b)
  {
    var kept := Limited(data.items, a);
    FilledPrefix(kept, b, true, true, "#");
    assert Prefix(kept, b) == Limited(data.items, b);
  }

  // ----- generate_text -----

  /** `generate_text`: the standard layout of eight items at most, titles cut at 50, under the IT之家日报 title. */
  method GenerateText(date: string, data: NewsData) returns (m: Message)
    ensures m == StandardText("IT之家日报", date, data, 8, 50)
  {
    m := GenerateStandardText("IT之家日报", date, data, 8, 50);
  }

  // ----- generate_image -----

  /**
   * `generate_image`: fifteen filled items are rendered; an image over
   * 1 MiB is rendered again from the first ten, and if still too large from
   * the first five. A `None` render on the first two attempts fails at
   * `len(pic)` and falls back to the text of the data as cut so far; on the
   * last attempt it is sent as an image with no file. Each cut of the shown
   * data is the same as showing fewer of the original items, so the message
   * follows the 15 → 10 → 5 ladder on the original items.
   */
  function ImageMessage(date: string, data: NewsData, render: NewsData -> Option<Bytes>): (m: Message)
    ensures var p15 := render(Shown(data, 15));
      var p10 := render(Shown(data, 10));
      var big15 := p15.Some? && |p15.value| > MaxImageBytes;
      var big10 := p10.Some? && |p10.value| > MaxImageBytes;
      && (p15.None? ==> m == StandardText("IT之家日报", date, Shown(data, 15), 8, 50))
      && (p15.Some? && !big15 ==> m == [Image(p15.value)])
      && (big15 && p10.None? ==> m == StandardText("IT之家日报", date, Shown(data, 10), 8, 50))
      && (big15 && p10.Some? && !big10 ==> m == [Image(p10.value)])
      && (big15 && big10 ==> m == ImageOf(render(Shown(data, 5))))
  {
    ShownPrefix(data, 15, 10);
    ShownPrefix(data, 10, 5);
    var first := Shown(data, 15);
    var pic := render(first);
    if pic.None? then StandardText("IT之家日报", date, first, 8, 50)
    else if |pic.value| <= MaxImageBytes then [Image(pic.value)]
    else
      var second := first.(items := Prefix(first.items, 10));
      var pic2 := render(second);
      if pic2.None? then StandardText("IT之家日报", date, second, 8, 50)
      else if |pic2.value| <= MaxImageBytes then [Image(pic2.value)]
      else ImageOf(render(second.(items := Prefix(second.items, 5))))
  }

  method GenerateImage(date: string, data: NewsData, render: NewsData -> Option<Bytes>) returns (m: Message)
    ensures m == ImageMessage(date, data, render)
  {
    var shown := data;
    if |shown.items| > 15 {
      shown := shown.(items := Prefix(shown.items, 15));
    }
    shown := ProcessNewsItems(shown, 0, true, true, "#");
    assert shown == Shown(data, 15);
    var pic := render(shown);
    if pic.None? {
      m := GenerateText(date, shown);
      return;
    }
    if |pic.value| > MaxImageBytes {
      shown := shown.(items := Prefix(shown.items, 10));
      pic := render(shown);
      if pic.None? {
        m := GenerateText(date, shown);
        return;
      }
      if |pic.value| > MaxImageBytes {
        shown := shown.(items := Prefix(shown.items, 5));
        pic := render(shown);
      }
    }
    m := ImageOf(pic);
  }

  /**
   * The text fallback after a missing image lists at most eight items and
   * every one of them with a link line: the fill step gave each a url, so the
   * reader sees "链接: #" where the source had none.
   */
  lemma FallbackShowsLinks(data: NewsData, k: int)
    requires k >= 0
    ensures var shown := Capped(Shown(data, k).items, 8);
      |shown| <= 8 && forall i :: 0 <= i < |shown| ==> shown[i].url != ""
  {
    ProcessedSpec(data, k, true, true, "#");
  }
}
