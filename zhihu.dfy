/**
 * api/handlers/zhihu_handler.py: the 知乎 handler of the handler package.
 */
module ZhihuHandler {
  import opened Wrappers
  import opened PyText
  import opened Models
  import opened Mixins
  import opened BaseHandler
  import opened Handlers
  import ItHomeHandler

  /** The handler as it registers itself. */
  const Zhihu: Handler := Handler("知乎", ["知乎日报", "知乎热榜", "zhihu"])

  /** `generate_text`: the standard layout under the 知乎日报 title. */
  method GenerateText(date: string, data: NewsData) returns (m: Message)
    ensures m == StandardText("知乎日报", date, data, 8, 50)
  {
    m := GenerateStandardText("知乎日报", date, data, 8, 50);
  }

  /** `generate_image`: fifteen filled items rendered once, with no size check and no fallback. */
  function ImageMessage(data: NewsData, render: NewsData -> Option<Bytes>): (m: Message)
    ensures var shown := Processed(data, 15, true, true, "#");
      && |m| == 1
      && (render(shown).Some? ==> m == [Image(render(shown).value)])
      && (render(shown).None? ==> m == [NoFileImage])
  {
    ImageOf(render(Processed(data, 15, true, true, "#")))
  }

  method GenerateImage(data: NewsData, render: NewsData -> Option<Bytes>) returns (m: Message)
    ensures m == ImageMessage(data, render)
  {
    var shown := data;
    if |shown.items| > 15 {
      shown := shown.(items := Prefix(shown.items, 15));
    }
    shown := ProcessNewsItems(shown, 0, true, true, "#");
    assert shown == Processed(data, 15, true, true, "#");
    m := ImageOf(render(shown));
  }

  /**
   * What the image message renders is at most fifteen of the original items,
   * in order, each with an index and a url.
   */
  lemma RenderedItems(data: NewsData)
    ensures var shown := Processed(data, 15, true, true, "#");
      && |shown.items| <= 15
      && forall i :: 0 <= i < |shown.items| ==>
           && shown.items[i].title == data.items[i].title
           && shown.items[i].index != 0 && shown.items[i].url != ""
  {
    ProcessedSpec(data, 15, true, true, "#");
  }

  /** The registrations the handler package makes at import time: IT之家, then 知乎. */
  function ImportTimeRegistry(): (r: Registry)
    ensures Resolves(r)
  {
    RegisterResolves(Registry([], []), ItHomeHandler.ItHome, Key);
    var afterItHome := Register(Registry([], []), ItHomeHandler.ItHome, Key);
    RegisterResolves(afterItHome, Zhihu, Key);
    Register(afterItHome, Zhihu, Key)
  }

  /**
   * Every spelling whose lower-case form is a name or alias of one of the
   * two handlers finds that handler; the two never take each other's keys.
   */
  lemma ImportTimeLookup(x: string)
    ensures var r := ImportTimeRegistry();
      var it := ItHomeHandler.ItHome;
      && ((Key(x) == Key(it.name) || Key(x) in Normed(Key, it.aliases)) ==> Lookup(r, Key(x)) == Some(it))
      && ((Key(x) == Key(Zhihu.name) || Key(x) in Normed(Key, Zhihu.aliases)) ==> Lookup(r, Key(x)) == Some(Zhihu))
  {
    var empty := Registry([], []);
    var afterItHome := Register(empty, ItHomeHandler.ItHome, Key);
    RegisterResolves(empty, ItHomeHandler.ItHome, Key);
    RegisterLookup(empty, ItHomeHandler.ItHome, Key, Key(x));
    RegisterLookup(afterItHome, Zhihu, Key, Key(x));
    ItHomeKeyHead(Key(x));
    ZhihuKeyHead(Key(x));
  }

  /** Every key of the IT之家 handler starts with 'i'. */
  lemma ItHomeKeyHead(k: string)
    ensures var it := ItHomeHandler.ItHome;
      (k == Key(it.name) || k in Normed(Key, it.aliases)) ==> |k| > 0 && k[0] == 'i'
  {
    var keys := Normed(Key, ItHomeHandler.ItHome.aliases);
    assert forall i :: 0 <= i < |keys| ==> keys[i][0] == 'i';
  }

  /** No key of the 知乎 handler starts with 'i'. */
  lemma ZhihuKeyHead(k: string)
    ensures (k == Key(Zhihu.name) || k in Normed(Key, Zhihu.aliases)) ==> |k| > 0 && k[0] != 'i'
  {
    var keys := Normed(Key, Zhihu.aliases);
    assert forall i :: 0 <= i < |keys| ==> keys[i][0] != 'i';
  }
}
