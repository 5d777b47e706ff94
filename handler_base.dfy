/**
 * api/handlers/base_handler.py: `BaseNewsHandler.get_news_item_by_index`
 * and the case-insensitive `NewsHandlerFactory`. The factory's two
 * class-level dicts (`_handlers`, `_aliases`) are one `Registry` value that a
 * factory object holds; the registration rules are written once here, with
 * the key normalisation as a parameter, and api/handlers.py reuses them with
 * no normalisation.
 */
module BaseHandler {
  import opened Wrappers
  import opened PyText
  import opened Models
  import opened Exceptions
  import opened Dicts

  /** A handler as the factory holds it: its name and its aliases (`aliases or []`). */
  datatype Handler = Handler(name: string, aliases: seq<string>)

  // ----- get_news_item_by_index -----

  /** The position of the first item whose index field equals `index`, or the length when none does. */
  function FirstIndexed(items: seq<NewsItem>, index: int): (j: nat)
    ensures j <= |items|
    ensures j < |items| ==> items[j].index == index
    ensures forall k :: 0 <= k < j ==> items[k].index != index
  {
    if |items| == 0 then 0
    else if items[0].index == index then 0
    else 1 + FirstIndexed(items[1..], index)
  }

  /** The answer for a fetched list: the first item carrying the index, else the item at that 1-based position. */
  function ItemByIndex(items: seq<NewsItem>, index: int): Option<NewsItem> {
    var j := FirstIndexed(items, index);
    if j < |items| then Some(items[j])
    else if 1 <= index <= |items| then Some(items[index - 1])
    else None
  }

  /**
   * An item whose index field matches wins, the earliest one; only when no
   * item matches is the position used; and the answer is None exactly when
   * nothing matches and the position is out of range.
   */
  lemma ItemByIndexSpec(items: seq<NewsItem>, index: int)
    ensures var r := ItemByIndex(items, index);
      && (r.None? <==> (forall k :: 0 <= k < |items| ==> items[k].index != index) && !(1 <= index <= |items|))
      && ((exists k :: 0 <= k < |items| && items[k].index == index) ==>
            exists j :: 0 <= j < |items| && r == Some(items[j]) && items[j].index == index
              && forall k :: 0 <= k < j ==> items[k].index != index)
      && ((forall k :: 0 <= k < |items| ==> items[k].index != index) ==>
            r == if 1 <= index <= |items| then Some(items[index - 1]) else None)
  {
    var j := FirstIndexed(items, index);
    if exists k :: 0 <= k < |items| && items[k].index == index {
      assert j < |items|;
    }
  }

  /** `get_news_item_by_index`: search the fetched items; a failed fetch answers None. */
  method GetNewsItemByIndex(fetched: Result<NewsData, Exc>, index: int) returns (r: Option<NewsItem>)
    ensures fetched.Failure? ==> r == None
    ensures fetched.Success? ==> r == ItemByIndex(fetched.value.items, index)
  {
    if fetched.Failure? {
      return None;
    }
    var items := fetched.value.items;
    var i := 0;
    while i < |items|
      invariant 0 <= i <= |items|
      invariant forall k :: 0 <= k < i ==> items[k].index != index
    {
      if items[i].index == index {
        assert FirstIndexed(items, index) == i by {
          FirstIndexedAt(items, index, i);
        }
        return Some(items[i]);
      }
      i := i + 1;
    }
    assert FirstIndexed(items, index) == |items| by {
      FirstIndexedAt(items, index, |items|);
    }
    if 1 <= index <= |items| {
      return Some(items[index - 1]);
    }
    return None;
  }

  /** FirstIndexed is the position that its contract describes, and no other. */
  lemma {:induction false} FirstIndexedAt(items: seq<NewsItem>, index: int, i: nat)
    requires i <= |items|
    requires i < |items| ==> items[i].index == index
    requires forall k :: 0 <= k < i ==> items[k].index != index
    ensures FirstIndexed(items, index) == i
  {
    if i > 0 {
      assert items[0].index != index;
      assert forall k :: 0 <= k < i - 1 ==> items[1..][k] == items[k + 1];
      FirstIndexedAt(items[1..], index, i - 1);
    }
  }

  // ----- the handler registry -----

  /** The factory's `_handlers` (key → handler) and `_aliases` (alias key → handler key). */
  datatype Registry = Registry(handlers: Dict<string, Handler>, aliases: Dict<string, string>)

  /** Every alias points at a registered key, so `_handlers[_aliases[name]]` cannot fail. */
  predicate Resolves(r: Registry) {
    forall a :: a in Keys(r.aliases) ==> Find(r.aliases, a).value in Keys(r.handlers)
  }

  /** The aliases with the factory's key normalisation applied. */
  function Normed(norm: string -> string, xs: seq<string>): (r: seq<string>)
    ensures |r| == |xs|
    ensures forall i :: 0 <= i < |xs| ==> r[i] == norm(xs[i])
  {
    seq(|xs|, i requires 0 <= i < |xs| => norm(xs[i]))
  }

  /** Bind each key, in order, to the target, overwriting what it held. */
  function BindAll(d: Dict<string, string>, keys: seq<string>, target: string): Dict<string, string> {
    if |keys| == 0 then d
    else Put(BindAll(d, keys[..|keys| - 1], target), keys[|keys| - 1], target)
  }

  /** After binding, the bound keys read the target and every other key reads as before. */
  lemma {:induction false} BindAllFind(d: Dict<string, string>, keys: seq<string>, target: string, k: string)
    ensures Find(BindAll(d, keys, target), k) == if k in keys then Some(target) else Find(d, k)
  {
    if |keys| > 0 {
      var init := keys[..|keys| - 1];
      BindAllFind(d, init, target, k);
      PutFind(BindAll(d, init, target), keys[|keys| - 1], target, k);
      assert keys == init + [keys[|keys| - 1]];
    }
  }

  /** `register_handler`: the name key is (re)bound to the handler and every alias key to the name key. */
  function Register(r: Registry, h: Handler, norm: string -> string): Registry {
    Registry(Put(r.handlers, norm(h.name), h), BindAll(r.aliases, Normed(norm, h.aliases), norm(h.name)))
  }

  /** `get_handler` on an already normalised key: names first, then aliases, else None. */
  function Lookup(r: Registry, key: string): (res: Option<Handler>)
    requires Resolves(r)
    ensures res.Some? <==> key in Keys(r.handlers) || key in Keys(r.aliases)
  {
    if key in Keys(r.handlers) then Find(r.handlers, key)
    else if key in Keys(r.aliases) then Find(r.handlers, Find(r.aliases, key).value)
    else None
  }

  /** Registration keeps every alias resolvable. */
  lemma RegisterResolves(r: Registry, h: Handler, norm: string -> string)
    requires Resolves(r)
    ensures Resolves(Register(r, h, norm))
  {
    var r' := Register(r, h, norm);
    forall a | a in Keys(r'.aliases)
      ensures Find(r'.aliases, a).value in Keys(r'.handlers)
    {
      BindAllFind(r.aliases, Normed(norm, h.aliases), norm(h.name), a);
      PutFind(r.handlers, norm(h.name), h, Find(r'.aliases, a).value);
    }
  }

  /**
   * After registering h: its name key reads h; other names read as before
   * and still win over aliases; its alias keys read h (a later registration
   * overwrites an earlier alias); an old alias of a key h now occupies reads
   * h; every other key reads as before.
   */
  lemma RegisterLookup(r: Registry, h: Handler, norm: string -> string, k: string)
    requires Resolves(r)
    ensures Resolves(Register(r, h, norm))
    ensures Lookup(Register(r, h, norm), k)
      == if k == norm(h.name) then Some(h)
         else if k in Keys(r.handlers) then Find(r.handlers, k)
         else if k in Normed(norm, h.aliases) then Some(h)
         else if k in Keys(r.aliases) && Find(r.aliases, k).value == norm(h.name) then Some(h)
         else Lookup(r, k)
  {
    RegisterResolves(r, h, norm);
    var r' := Register(r, h, norm);
    PutFind(r.handlers, norm(h.name), h, k);
    BindAllFind(r.aliases, Normed(norm, h.aliases), norm(h.name), k);
    if k != norm(h.name) && k !in Keys(r.handlers) && k in Keys(r'.aliases) {
      PutFind(r.handlers, norm(h.name), h, Find(r'.aliases, k).value);
    }
  }

  /** The key normalisation of this factory. */
  function Key(name: string): string { Lower(name) }

  /**
   * Case-insensitive: after registering h, any spelling of its name that
   * lowers to the same key finds h, and so does any spelling of one of its
   * aliases whose key is not a registered name.
   */
  lemma InsensitiveLookup(r: Registry, h: Handler, x: string)
    requires Resolves(r)
    ensures Resolves(Register(r, h, Key))
    ensures Lower(x) == Lower(h.name) ==> Lookup(Register(r, h, Key), Key(x)) == Some(h)
    ensures (exists i :: 0 <= i < |h.aliases| && Lower(h.aliases[i]) == Lower(x)) && Lower(x) !in Keys(r.handlers) ==>
      Lookup(Register(r, h, Key), Key(x)) == Some(h)
  {
    RegisterLookup(r, h, Key, Key(x));
  }

  /** The alias loop of `register_handler`: each normalised alias is bound to the name key. */
  method BindAliasKeys(d: Dict<string, string>, aliases: seq<string>, nameKey: string, norm: string -> string)
    returns (r: Dict<string, string>)
    ensures r == BindAll(d, Normed(norm, aliases), nameKey)
  {
    r := d;
    ghost var keys := Normed(norm, aliases);
    for i := 0 to |aliases|
      invariant r == BindAll(d, keys[..i], nameKey)
    {
      assert keys[..i + 1][..i] == keys[..i];
      r := Put(r, norm(aliases[i]), nameKey);
    }
    assert keys[..|aliases|] == keys;
  }

  /**
   * The case-insensitive `NewsHandlerFactory` of api/handlers/base_handler.py.
   * The original keeps `_handlers` and `_aliases` as class attributes reached
   * through classmethods, so the whole process shares one registry; here that
   * registry is the field of one factory object, and every registration and
   * lookup is meant to go through that single object.
   */
  class NewsHandlerFactory {
    var registry: Registry

    ghost predicate Valid()
      reads this
    {
      Resolves(registry)
    }

    constructor ()
      ensures Valid() && registry == Registry([], [])
    {
      registry := Registry([], []);
    }

    /** `register_handler`: keys are the lower-cased name and aliases. */
    method RegisterHandler(h: Handler)
      requires Valid()
      modifies this
      ensures Valid() && registry == Register(old(registry), h, Key)
    {
      RegisterResolves(registry, h, Key);
      var nameKey := Key(h.name);
      var aliases := BindAliasKeys(registry.aliases, h.aliases, nameKey, Key);
      registry := Registry(Put(registry.handlers, nameKey, h), aliases);
    }

    /** `get_handler`: lower-case the name, then names before aliases. */
    function GetHandler(name: string): (r: Option<Handler>)
      requires Valid()
      reads this
      ensures r == Lookup(registry, Key(name))
    {
      Lookup(registry, Lower(name))
    }

    /** `get_all_handlers`: a copy of `_handlers`; being a value, changing it cannot reach the factory. */
    method GetAllHandlers() returns (copy: Dict<string, Handler>)
      ensures copy == registry.handlers
    {
      copy := registry.handlers;
    }
  }
}
