/** Cluster totals from node records (internal/resource/resource_client.go and
    resource_view_builder.go), with the nested records as objects on the heap.

    A record is what can be read off it: `Cell` names one number of an accelerator
    type or product, absent where the record has no entry.  CPU and memory amounts
    and quantities are reals, device amounts integers read as reals.
 */
module ResourceTotals {
  import opened Basics

  datatype Slot = Quantity | MemoryMiB | CoreUnits

  datatype Cell =
    | TypeQuantity
    | ProductCount(product: string)
    | OfProduct(product: string, slot: Slot)

  type Amount = Option<real>

  /** Adding an absent amount changes nothing. */
  function Plus(a: Amount, b: Amount): Amount
  {
    if a.None? then b else if b.None? then a else Some(a.value + b.value)
  }

  class Virtualization {
    var memoryMiB: int
    var coreUnits: int

    constructor ()
      ensures memoryMiB == 0 && coreUnits == 0
    {
      memoryMiB, coreUnits := 0, 0;
    }
  }

  class Product {
    var quantity: real
    var virtualization: Virtualization?

    constructor ()
      ensures quantity == 0.0 && virtualization == null
    {
      quantity, virtualization := 0.0, null;
    }

    ghost function Repr(): set<object>
      reads this
    {
      if virtualization == null then {this} else {this, virtualization}
    }

    ghost function Read(slot: Slot): Amount
      reads this, virtualization
    {
      match slot
      case Quantity => Some(quantity)
      case MemoryMiB => if virtualization == null then None else Some(virtualization.memoryMiB as real)
      case CoreUnits => if virtualization == null then None else Some(virtualization.coreUnits as real)
    }

    method SetQuantity(q: real)
      modifies this
      ensures Repr() == old(Repr())
      ensures forall slot :: Read(slot) == if slot.Quantity? then Some(q) else old(Read(slot))
    {
      quantity := q;
    }

    /** Takes over a quantity and a copy of the source's virtualization amounts. */
    method Replace(q: real, source: Product?)
      modifies this
      ensures fresh(Repr() - {this})
      ensures forall slot :: Read(slot) == if slot.Quantity? then Some(q)
                                           else if source == null then None else old(source.Read(slot))
    {
      quantity := q;
      if source == null || source.virtualization == null {
        virtualization := null;
        return;
      }
      var copy := new Virtualization();
      copy.memoryMiB, copy.coreUnits := source.virtualization.memoryMiB, source.virtualization.coreUnits;
      virtualization := copy;
    }

    method Add(source: Product)
      requires source.Repr() !! Repr()
      modifies Repr()
      ensures forall slot :: Read(slot) == Plus(old(Read(slot)), old(source.Read(slot)))
      ensures fresh(Repr() - old(Repr()))
    {
      quantity := quantity + source.quantity;
      if source.virtualization != null {
        if virtualization == null {
          virtualization := new Virtualization();
        }
        virtualization.memoryMiB := virtualization.memoryMiB + source.virtualization.memoryMiB;
        virtualization.coreUnits := virtualization.coreUnits + source.virtualization.coreUnits;
      }
    }
  }

  type Products = map<string, Product?>

  class Group {
    var quantity: real
    var productGroups: map<string, real>
    var products: Products
    ghost var footprint: set<object>

    constructor ()
      ensures quantity == 0.0 && productGroups == map[] && products == map[]
      ensures footprint == {this}
    {
      quantity, productGroups, products := 0.0, map[], map[];
      footprint := {this};
    }

    ghost predicate Closed()
      reads this, footprint
    {
      && this in footprint
      && forall k :: k in products && products[k] != null ==> products[k] in footprint && products[k].Repr() <= footprint
    }

    /** The products are objects of our own, no two of them overlapping. */
    ghost predicate Valid()
      reads this, footprint
    {
      && Closed()
      && forall j, k :: j in products && k in products && j != k && products[j] != null && products[k] != null ==>
           products[j].Repr() !! products[k].Repr()
    }

    ghost function ProductAt(product: string, slot: Slot): Amount
      requires Closed()
      reads this, footprint
    {
      if product in products && products[product] != null then products[product].Read(slot) else None
    }

    ghost function Read(cell: Cell): Amount
      requires Closed()
      reads this, footprint
    {
      match cell
      case TypeQuantity => Some(quantity)
      case ProductCount(p) => CountAt(productGroups, p)
      case OfProduct(p, slot) => ProductAt(p, slot)
    }

    method EnsureProduct(k: string) returns (product: Product)
      requires Valid()
      modifies this
      ensures Valid() && fresh(footprint - old(footprint))
      ensures k in products && product == products[k]
      ensures quantity == old(quantity) && productGroups == old(productGroups)
      ensures forall slot ::
                product.Read(slot) == Plus(old(ProductAt(k, slot)), if slot.Quantity? then Some(0.0) else None)
      ensures forall p, slot | p != k :: ProductAt(p, slot) == old(ProductAt(p, slot))
    {
      if k in products && products[k] != null {
        product := products[k];
        return;
      }
      product := new Product();
      products := products[k := product];
      footprint := footprint + {product};
    }

    method AddProductAt(k: string, source: Product)
      requires Valid() && source.Repr() !! footprint
      modifies footprint
      ensures Valid() && fresh(footprint - old(footprint))
      ensures quantity == old(quantity) && productGroups == old(productGroups)
      ensures forall slot :: ProductAt(k, slot) == Plus(old(ProductAt(k, slot)), old(source.Read(slot)))
      ensures forall p, slot | p != k :: ProductAt(p, slot) == old(ProductAt(p, slot))
    {
      var target := EnsureProduct(k);
      target.Add(source);
      footprint := footprint + target.Repr();
    }

    method AddProducts(source: Group)
      requires Valid() && source.Closed() && source.footprint !! footprint
      modifies footprint
      ensures Valid() && fresh(footprint - old(footprint))
      ensures quantity == old(quantity) && productGroups == old(productGroups)
      ensures forall p, slot :: ProductAt(p, slot) == Plus(old(ProductAt(p, slot)), old(source.ProductAt(p, slot)))
    {
      var todo := source.products.Keys;
      while todo != {}
        invariant todo <= source.products.Keys
        invariant Valid() && fresh(footprint - old(footprint))
        invariant quantity == old(quantity) && productGroups == old(productGroups)
        invariant forall p, slot | p in todo :: ProductAt(p, slot) == old(ProductAt(p, slot))
        invariant forall p, slot | p !in todo ::
                    ProductAt(p, slot) == Plus(old(ProductAt(p, slot)), old(source.ProductAt(p, slot)))
        decreases |todo|
      {
        var k :| k in todo;
        if source.products[k] != null {
          AddProductAt(k, source.products[k]);
        }
        todo := todo - {k};
      }
    }

    method Add(source: Group)
      requires Valid() && source.Closed() && source.footprint !! footprint
      modifies footprint
      ensures Valid() && fresh(footprint - old(footprint))
      ensures forall cell :: Read(cell) == Plus(old(Read(cell)), old(source.Read(cell)))
    {
      quantity := quantity + source.quantity;
      productGroups := AddCounts(productGroups, source.productGroups);
      AddProducts(source);
    }
  }

  method AddCounts(counts: map<string, real>, added: map<string, real>) returns (r: map<string, real>)
    ensures forall k :: CountAt(r, k) == Plus(CountAt(counts, k), CountAt(added, k))
  {
    r := counts;
    var todo := added.Keys;
    while todo != {}
      invariant todo <= added.Keys
      invariant forall k :: CountAt(r, k) == if k in todo then CountAt(counts, k) else Plus(CountAt(counts, k), CountAt(added, k))
      decreases |todo|
    {
      var k :| k in todo;
      r := r[k := (if k in r then r[k] else 0.0) + added[k]];
      todo := todo - {k};
    }
  }

  function CountAt(counts: map<string, real>, k: string): Amount
  {
    if k in counts then Some(counts[k]) else None
  }

  datatype Reading =
    | Cpu
    | Memory
    | Accelerator(kind: string, cell: Cell)

  type Groups = map<string, Group?>

  class Info {
    var cpu: real
    var memory: real
    var groups: Groups
    ghost var footprint: set<object>

    constructor ()
      ensures cpu == 0.0 && memory == 0.0 && groups == map[]
      ensures footprint == {this}
    {
      cpu, memory, groups := 0.0, 0.0, map[];
      footprint := {this};
    }

    ghost predicate Closed()
      reads this, footprint
    {
      && this in footprint
      && forall t :: t in groups && groups[t] != null ==>
           groups[t] in footprint && groups[t].footprint <= footprint && groups[t].Closed()
    }

    ghost predicate Valid()
      reads this, footprint
    {
      && Closed()
      && (forall t :: t in groups && groups[t] != null ==> groups[t].Valid() && this !in groups[t].footprint)
      && forall t, u :: t in groups && u in groups && t != u && groups[t] != null && groups[u] != null ==>
           groups[t].footprint !! groups[u].footprint
    }

    ghost function GroupAt(kind: string, cell: Cell): Amount
      requires Closed()
      reads this, footprint
    {
      if kind in groups && groups[kind] != null then groups[kind].Read(cell) else None
    }

    ghost function Read(r: Reading): Amount
      requires Closed()
      reads this, footprint
    {
      match r
      case Cpu => Some(cpu)
      case Memory => Some(memory)
      case Accelerator(kind, cell) => GroupAt(kind, cell)
    }

    method EnsureGroup(kind: string) returns (group: Group)
      requires Valid()
      modifies this
      ensures Valid() && fresh(footprint - old(footprint))
      ensures kind in groups && group == groups[kind]
      ensures cpu == old(cpu) && memory == old(memory)
      ensures forall cell ::
                group.Read(cell) == Plus(old(GroupAt(kind, cell)), if cell.TypeQuantity? then Some(0.0) else None)
      ensures forall t, cell | t != kind :: GroupAt(t, cell) == old(GroupAt(t, cell))
    {
      if kind in groups && groups[kind] != null {
        group := groups[kind];
        return;
      }
      group := new Group();
      groups := groups[kind := group];
      footprint := footprint + {group};
    }

    method AddGroupAt(kind: string, source: Group)
      requires Valid() && source.Closed() && source.footprint !! footprint
      modifies footprint
      ensures Valid() && fresh(footprint - old(footprint))
      ensures cpu == old(cpu) && memory == old(memory)
      ensures forall cell :: GroupAt(kind, cell) == Plus(old(GroupAt(kind, cell)), old(source.Read(cell)))
      ensures forall t, cell | t != kind :: GroupAt(t, cell) == old(GroupAt(t, cell))
    {
      var target := EnsureGroup(kind);
      target.Add(source);
      footprint := footprint + target.footprint;
    }

    method MergeGroups(source: Info)
      requires Valid() && source.Closed() && source.footprint !! footprint
      modifies footprint
      ensures Valid() && fresh(footprint - old(footprint))
      ensures cpu == old(cpu) && memory == old(memory)
      ensures forall t, cell :: GroupAt(t, cell) == Plus(old(GroupAt(t, cell)), old(source.GroupAt(t, cell)))
    {
      var todo := source.groups.Keys;
      while todo != {}
        invariant todo <= source.groups.Keys
        invariant Valid() && fresh(footprint - old(footprint))
        invariant cpu == old(cpu) && memory == old(memory)
        invariant forall t, cell | t in todo :: GroupAt(t, cell) == old(GroupAt(t, cell))
        invariant forall t, cell | t !in todo ::
                    GroupAt(t, cell) == Plus(old(GroupAt(t, cell)), old(source.GroupAt(t, cell)))
        decreases |todo|
      {
        var kind :| kind in todo;
        if source.groups[kind] != null {
          AddGroupAt(kind, source.groups[kind]);
        }
        todo := todo - {kind};
      }
    }

    method Add(source: Info)
      requires Valid() && source.Closed() && source.footprint !! footprint
      modifies footprint
      ensures Valid() && fresh(footprint - old(footprint))
      ensures forall r :: Read(r) == Plus(old(Read(r)), old(source.Read(r)))
    {
      cpu := cpu + source.cpu;
      memory := memory + source.memory;
      MergeGroups(source);
    }
  }
}
