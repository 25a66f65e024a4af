/**
 * The in-memory items service: a list of items seeded with two entries,
 * read whole or by id, grown by `create`, and patched in place by
 * `update`. Nothing removes an item, so the item at position i always has
 * id i + 1. Prices are JavaScript numbers, modelled as reals.
 */
module ItemsService {
  import opened Wrappers

  datatype Item = Item(id: int, name: string, price: real, description: Option<string>)

  /** The fields a create request carries; the id is assigned by the service. */
  datatype CreateDto = CreateDto(name: string, price: real, description: Option<string>)

  /** The fields an update request carries; an absent field is left as it was. */
  datatype UpdateDto = UpdateDto(name: Option<string>, price: Option<real>, description: Option<string>)

  /** Ids are positions: the item at index i has id i + 1. */
  predicate IdsArePositions(items: seq<Item>) {
    forall i :: 0 <= i < |items| ==> items[i].id == i + 1
  }

  /** The index of the first item with this id, or `|items|` when there is none. */
  function FirstIndex(items: seq<Item>, id: int): (k: nat)
    ensures k <= |items|
    ensures k < |items| ==> items[k].id == id
    ensures forall j :: 0 <= j < k ==> items[j].id != id
  {
    if items == [] then 0
    else if items[0].id == id then 0
    else 1 + FirstIndex(items[1..], id)
  }

  /** `Array.prototype.find` by id: the first item with this id, if any. */
  function Find(items: seq<Item>, id: int): (r: Option<Item>)
    ensures r.Some? ==> r.value in items && r.value.id == id
    ensures r.None? <==> forall j :: 0 <= j < |items| ==> items[j].id != id
  {
    var k := FirstIndex(items, id);
    if k < |items| then Some(items[k]) else None
  }

  /** When ids are positions, the item with id n sits at index n - 1, and no other id is present. */
  lemma FindByPosition(items: seq<Item>, id: int)
    requires IdsArePositions(items)
    ensures 1 <= id <= |items| ==> FirstIndex(items, id) == id - 1 && Find(items, id) == Some(items[id - 1])
    ensures !(1 <= id <= |items|) ==> Find(items, id).None?
  {
    var k := FirstIndex(items, id);
    if 1 <= id <= |items| {
      assert items[id - 1].id == id;
      assert k == id - 1;
    }
  }

  /** `Object.assign(item, dto)`: the present fields overwrite, the id and the others stay. */
  function Apply(item: Item, dto: UpdateDto): (r: Item)
    ensures r.id == item.id
    ensures dto.name.Some? ==> r.name == dto.name.value
    ensures dto.name.None? ==> r.name == item.name
    ensures dto.price.Some? ==> r.price == dto.price.value
    ensures dto.price.None? ==> r.price == item.price
    ensures dto.description.Some? ==> r.description == dto.description
    ensures dto.description.None? ==> r.description == item.description
  {
    Item(item.id, dto.name.GetOr(item.name), dto.price.GetOr(item.price),
      if dto.description.Some? then dto.description else item.description)
  }

  /** Applying the same patch twice is applying it once. */
  lemma ApplyIdempotent(item: Item, dto: UpdateDto)
    ensures Apply(Apply(item, dto), dto) == Apply(item, dto)
  {
  }

  /** An empty patch changes nothing. */
  lemma ApplyEmptyIsIdentity(item: Item)
    ensures Apply(item, UpdateDto(None, None, None)) == item
  {
  }

  /** Patching the item at an existing id keeps ids at their positions. */
  lemma PatchKeepsIds(items: seq<Item>, k: nat, dto: UpdateDto)
    requires IdsArePositions(items) && k < |items|
    ensures IdsArePositions(items[k := Apply(items[k], dto)])
  {
  }

  /** Appending the item with the next id keeps ids at their positions, and that id then finds it. */
  lemma {:induction false} AppendNextId(items: seq<Item>, item: Item)
    requires IdsArePositions(items) && item.id == |items| + 1
    ensures IdsArePositions(items + [item])
    ensures Find(items + [item], item.id) == Some(item)
  {
    var grown := items + [item];
    assert forall i :: 0 <= i < |items| ==> grown[i] == items[i];
    FindByPosition(grown, item.id);
  }

  /** The items wired into the service at start-up. */
  function Seed(): seq<Item> {
    [Item(1, "Mock Item A", 12.99, Some("A sample item")),
     Item(2, "Mock Item B", 24.5, None)]
  }

  class Items {
    var items: seq<Item>

    ghost predicate Valid()
      reads this
    {
      IdsArePositions(items)
    }

    constructor ()
      ensures Valid()
      ensures items == Seed()
    {
      items := Seed();
    }

    /** `findAll()`: every stored item, in order. */
    method FindAll() returns (r: seq<Item>)
      ensures r == items
    {
      r := items;
    }

    /** `findOne(id)`: the first item with that id, or none. */
    method FindOne(id: int) returns (r: Option<Item>)
      requires Valid()
      ensures r == Find(items, id)
      ensures r.Some? <==> 1 <= id <= |items|
      ensures r.Some? ==> r.value == items[id - 1]
    {
      FindByPosition(items, id);
      r := Find(items, id);
    }

    /** `create(dto)`: a new item with the next id and the request's fields, appended and returned. */
    method Create(dto: CreateDto) returns (item: Item)
      requires Valid()
      modifies this
      ensures Valid()
      ensures item == Item(|old(items)| + 1, dto.name, dto.price, dto.description)
      ensures items == old(items) + [item]
      ensures Find(items, item.id) == Some(item)
    {
      item := Item(|items| + 1, dto.name, dto.price, dto.description);
      AppendNextId(items, item);
      items := items + [item];
    }

    /**
     * `update(id, dto)`: patches the first item with that id and returns
     * it; an unknown id changes nothing and returns none.
     */
    method Update(id: int, dto: UpdateDto) returns (r: Option<Item>)
      requires Valid()
      modifies this
      ensures Valid()
      ensures Find(old(items), id).None? ==> r.None? && items == old(items)
      ensures Find(old(items), id).Some? ==>
        var k := FirstIndex(old(items), id);
        items == old(items)[k := Apply(old(items)[k], dto)] && r == Some(items[k])
      ensures |items| == |old(items)|
    {
      var found := Find(items, id);
      if found.Some? {
        var k := FirstIndex(items, id);
        PatchKeepsIds(items, k, dto);
        items := items[k := Apply(items[k], dto)];
        r := Some(items[k]);
      } else {
        r := None;
      }
    }
  }

  /** The seed list already has ids at their positions. */
  lemma SeedIdsArePositions()
    ensures IdsArePositions(Seed()) && |Seed()| == 2
  {
  }
}
