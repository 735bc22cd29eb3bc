/** UpsfClient: the stream loops and the wrapping of requests and replies. The network is an adversary: a stream is
    any finite sequence of items that ends with any status, a server answers any request with any response. */
module Client {
  import opened Cells
  import opened CStrings
  import opened Messages
  import opened Items

  /** A stream being read. A `Read` that finds no further item leaves the caller's item alone. */
  class Reader {
    const items: seq<Item>
    const ok: bool
    var pos: nat

    constructor (items: seq<Item>, ok: bool)
      ensures this.items == items && this.ok == ok && pos == 0
    {
      this.items, this.ok, pos := items, ok, 0;
    }

    ghost predicate Valid()
      reads this
    {
      pos <= |items|
    }

    ghost function Ahead(): seq<Item>
      requires Valid()
      reads this
    {
      items[pos..]
    }

    method Read(item: Item) returns (more: bool, item': Item)
      requires Valid()
      modifies this
      ensures Valid()
      ensures more <==> old(Ahead()) != []
      ensures if more then [item'] + Ahead() == old(Ahead()) else item' == item && pos == old(pos)
    {
      if pos == |items| {
        return false, item;
      }
      item', more := items[pos], true;
      pos := pos + 1;
    }

    method Finish() returns (status: bool)
      ensures status == ok
    {
      status := ok;
    }
  }

  /** The first item of a kind in a stream. */
  function First(kind: Kind, items: seq<Item>): (first: Option<Item>)
    ensures first.Some? ==> Has(kind, first.value)
  {
    if items == [] then None else if Has(kind, items[0]) then Some(items[0]) else First(kind, items[1..])
  }

  /** The items of a kind in a stream, in stream order. */
  function All(kind: Kind, items: seq<Item>): (all: seq<Item>)
    ensures |all| <= |items|
    ensures forall i | 0 <= i < |all| :: Has(kind, all[i])
  {
    if items == [] then []
    else if Has(kind, items[0]) then [items[0]] + All(kind, items[1..])
    else All(kind, items[1..])
  }

  /** `First` is the item at the lowest index that has one of the kind. */
  lemma {:induction false} FirstIs(kind: Kind, items: seq<Item>)
    ensures First(kind, items).None? <==> forall i | 0 <= i < |items| :: !Has(kind, items[i])
    ensures First(kind, items).Some? ==>
              exists i :: 0 <= i < |items| && items[i] == First(kind, items).value
                          && forall j | 0 <= j < i :: !Has(kind, items[j])
  {
    if items != [] && !Has(kind, items[0]) {
      FirstIs(kind, items[1..]);
      if First(kind, items).Some? {
        var i :| && 0 <= i < |items| - 1 && items[1..][i] == First(kind, items).value
                 && forall j | 0 <= j < i :: !Has(kind, items[1..][j]);
        assert items[i + 1] == First(kind, items).value;
        assert forall j | 0 <= j < i + 1 :: !Has(kind, items[j]) by {
          assert forall j | 1 <= j < i + 1 :: items[j] == items[1..][j - 1];
        }
      }
    }
  }

  /** Reading one and reading the list agree. */
  lemma {:induction false} FirstOfAll(kind: Kind, items: seq<Item>)
    ensures First(kind, items) == if All(kind, items) == [] then None else Some(All(kind, items)[0])
  {
    if items != [] {
      FirstOfAll(kind, items[1..]);
    }
  }

  /** `All` is what stays when two streams are read one after the other. */
  lemma {:induction false} AllConcat(kind: Kind, a: seq<Item>, b: seq<Item>)
    ensures All(kind, a + b) == All(kind, a) + All(kind, b)
  {
    hide Has;
    if a == [] {
      assert a + b == b;
    } else {
      AllConcat(kind, a[1..], b);
      assert (a + b)[1..] == a[1..] + b && (a + b)[0] == a[0];
      Regroup([a[0]], All(kind, a[1..]), All(kind, b));
    }
  }

  /** ReadV1 by name. The loop stops at the first item of the kind; after it the name is checked on the item last
      read, which without such an item is the default instance with its empty name. */
  method ReadByName(kind: Kind, name: PString, reader: Reader, reply: Item) returns (found: bool, reply': Item)
    requires reader.Valid()
    modifies reader
    ensures var first := First(kind, old(reader.Ahead()));
            && reply' == first.GetOr(reply)
            && (found <==> reader.ok && name == NameOf(first.GetOr(Default(kind))))
  {
    reply' := reply;
    var item, more := NoItem, true;
    ghost var all := reader.Ahead();
    while true
      invariant reader.Valid() && !Has(kind, item) && reply' == reply
      invariant First(kind, all) == First(kind, reader.Ahead())
      decreases |reader.Ahead()|
    {
      ghost var ahead := reader.Ahead();
      more, item := reader.Read(item);
      if !more {
        break;
      }
      assert ahead[0] == item && ahead[1..] == reader.Ahead();
      if Has(kind, item) {
        reply' := As(kind, item);
        break;
      }
    }
    var status := reader.Finish();
    found := status && NameOf(As(kind, item)) == name;
  }

  /** ReadV1 of a list: whatever was received stays in the vector, even when the status is bad in the end. */
  method ReadAll(kind: Kind, reader: Reader, items: seq<Item>) returns (ok: bool, items': seq<Item>)
    requires reader.Valid()
    modifies reader
    ensures ok <==> reader.ok
    ensures items' == items + All(kind, old(reader.Ahead()))
  {
    items' := items;
    var item := NoItem;
    ghost var all := reader.Ahead();
    while true
      invariant reader.Valid()
      invariant items' + All(kind, reader.Ahead()) == items + All(kind, all)
      decreases |reader.Ahead()|
    {
      ghost var ahead := reader.Ahead();
      var more;
      more, item := reader.Read(item);
      if !more {
        break;
      }
      assert ahead[0] == item && ahead[1..] == reader.Ahead();
      if !Has(kind, item) {
        continue;
      }
      items' := items' + [As(kind, item)];
    }
    ok := reader.Finish();
  }

  /** What a server sends back: a status, and an item that may be anything, also when the status is bad. */
  datatype Response = Response(ok: bool, item: Item)

  type Server = Item -> Response

  /** CreateV1 for one kind: the reply is overwritten even when the call failed. */
  method CreateV1(kind: Kind, server: Server, request: Item, reply: Item) returns (ok: bool, reply': Item)
    requires Has(kind, request)
    ensures ok == server(request).ok
    ensures reply' == As(kind, server(request).item)
  {
    var response := server(request);
    reply' := As(kind, response.item);
    ok := response.ok;
  }

  /** UpdateV1 for one kind: the reply is only written when the call succeeded. */
  method UpdateV1(kind: Kind, server: Server, request: Item, reply: Item) returns (ok: bool, reply': Item)
    requires Has(kind, request)
    ensures ok == server(request).ok
    ensures reply' == if ok then As(kind, server(request).item) else reply
  {
    var response := server(request);
    if !response.ok {
      return false, reply;
    }
    return true, As(kind, response.item);
  }
}
