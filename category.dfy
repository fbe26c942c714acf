/**
 * CategoryService (lib/Service/CategoryService.php) over the categories table
 * (lib/Db/CategoryMapper.php), modelled as an in-memory map from id to row
 * with an auto-increment counter. An empty table is seeded with six default
 * categories the first time the list is read.
 */
module Categories {
  import opened Common

  /** A row of the categories table (lib/Db/Category.php). */
  datatype Category = Category(id: int, name: string, sortOrder: int)

  const DefaultCategories: seq<string> :=
    ["Software", "Telekommunikation", "Versicherung", "Miete/Leasing", "Dienstleistung", "Sonstige"]

  /** The rows seeding inserts from id `start` on: the first n defaults, sort orders 1..n. */
  function Seeded(start: int, n: nat): (m: map<int, Category>)
    requires n <= |DefaultCategories|
    ensures forall id :: id in m <==> start <= id < start + n
  {
    if n == 0 then map[]
    else Seeded(start, n - 1)[start + n - 1 := Category(start + n - 1, DefaultCategories[n - 1], n)]
  }

  /** m is the largest sort order in the table; MAX() of an empty table reads as 0. */
  predicate IsMaxSortOrder(rows: map<int, Category>, m: int)
  {
    && (rows == map[] ==> m == 0)
    && (forall id :: id in rows ==> rows[id].sortOrder <= m)
    && (rows != map[] ==> exists id :: id in rows && rows[id].sortOrder == m)
  }

  class CategoryTable {
    var rows: map<int, Category>
    var nextId: int

    ghost predicate Valid()
      reads this
    {
      forall id :: id in rows ==> rows[id].id == id && id < nextId
    }

    constructor ()
      ensures Valid() && rows == map[]
    {
      rows := map[];
      nextId := 1;
    }

    /** insert(): the row gets the next auto-increment id. */
    method Insert(name: string, sortOrder: int) returns (c: Category)
      requires Valid()
      modifies this
      ensures Valid()
      ensures c == Category(old(nextId), name, sortOrder)
      ensures c.id !in old(rows) && rows == old(rows)[c.id := c]
      ensures nextId == old(nextId) + 1
    {
      c := Category(nextId, name, sortOrder);
      rows := rows[nextId := c];
      nextId := nextId + 1;
    }

    /** getMaxSortOrder(): SELECT MAX(sort_order), 0 for an empty table. */
    method GetMaxSortOrder() returns (m: int)
      ensures IsMaxSortOrder(rows, m)
    {
      if rows == map[] {
        return 0;
      }
      var todo := rows.Keys;
      NonEmptyHasMember(todo);
      var first :| first in todo;
      m := rows[first].sortOrder;
      todo := todo - {first};
      while todo != {}
        invariant todo <= rows.Keys
        invariant forall id :: id in rows && id !in todo ==> rows[id].sortOrder <= m
        invariant exists id :: id in rows && rows[id].sortOrder == m
        decreases todo
      {
        NonEmptyHasMember(todo);
        var id :| id in todo;
        if rows[id].sortOrder > m {
          m := rows[id].sortOrder;
        }
        todo := todo - {id};
      }
    }
  }

  class CategoryService {
    var table: CategoryTable

    constructor (table: CategoryTable)
      ensures this.table == table
    {
      this.table := table;
    }

    /** initializeDefaults: one insert per default, sort orders 1..6 in list order. */
    method InitializeDefaults()
      requires table.Valid()
      modifies table
      ensures table.Valid()
      ensures table.nextId == old(table.nextId) + |DefaultCategories|
      ensures table.rows == old(table.rows) + Seeded(old(table.nextId), |DefaultCategories|)
    {
      var start := table.nextId;
      var index := 0;
      while index < |DefaultCategories|
        invariant 0 <= index <= |DefaultCategories|
        invariant table.Valid()
        invariant table.nextId == start + index
        invariant table.rows == old(table.rows) + Seeded(start, index)
      {
        var c := table.Insert(DefaultCategories[index], index + 1);
        index := index + 1;
      }
    }

    /** findAll: the table's rows, seeded with the defaults first when it is empty. */
    method FindAll() returns (all: map<int, Category>)
      requires table.Valid()
      modifies table
      ensures table.Valid() && all == table.rows
      ensures old(table.rows) != map[] ==> table.rows == old(table.rows) && table.nextId == old(table.nextId)
      ensures old(table.rows) == map[] ==> all == Seeded(old(table.nextId), |DefaultCategories|)
    {
      if table.rows == map[] {
        InitializeDefaults();
      }
      all := table.rows;
    }

    method Find(id: int) returns (r: Result<Category>)
      ensures id in table.rows ==> r == Ok(table.rows[id])
      ensures id !in table.rows ==> r == Err(NotFound)
    {
      if id !in table.rows {
        return Err(NotFound);
      }
      return Ok(table.rows[id]);
    }

    /** create: the new category sorts after every existing one. */
    method Create(name: string) returns (c: Category)
      requires table.Valid()
      modifies table
      ensures table.Valid()
      ensures c.name == name && c.id !in old(table.rows) && table.rows == old(table.rows)[c.id := c]
      ensures IsMaxSortOrder(old(table.rows), c.sortOrder - 1)
      ensures forall id :: id in old(table.rows) ==> old(table.rows)[id].sortOrder < c.sortOrder
      ensures old(table.rows) == map[] ==> c.sortOrder == 1
    {
      var max := table.GetMaxSortOrder();
      c := table.Insert(name, max + 1);
    }

    /** update: the name always, the sort order only when one is given. */
    method Update(id: int, name: string, sortOrder: Option<int>) returns (r: Result<Category>)
      requires table.Valid()
      modifies table`rows
      ensures table.Valid()
      ensures id !in old(table.rows) ==> r == Err(NotFound) && table.rows == old(table.rows)
      ensures id in old(table.rows) ==>
        var c := Category(id, name, sortOrder.GetOr(old(table.rows)[id].sortOrder));
        r == Ok(c) && table.rows == old(table.rows)[id := c]
    {
      if id !in table.rows {
        return Err(NotFound);
      }
      var category := table.rows[id];
      category := category.(name := name);
      if sortOrder.Some? {
        category := category.(sortOrder := sortOrder.value);
      }
      table.rows := table.rows[id := category];
      return Ok(category);
    }

    method Delete(id: int) returns (r: Result<Category>)
      requires table.Valid()
      modifies table`rows
      ensures table.Valid()
      ensures id !in old(table.rows) ==> r == Err(NotFound) && table.rows == old(table.rows)
      ensures id in old(table.rows) ==> r == Ok(old(table.rows)[id]) && table.rows == old(table.rows) - {id}
    {
      if id !in table.rows {
        return Err(NotFound);
      }
      r := Ok(table.rows[id]);
      table.rows := table.rows - {id};
    }
  }

  /** The seeded table lists the six defaults in order, with sort orders 1..6. */
  lemma {:induction false} SeededDefaults(start: int, n: nat)
    requires n <= |DefaultCategories|
    ensures forall k :: 0 <= k < n ==>
      Seeded(start, n)[start + k] == Category(start + k, DefaultCategories[k], k + 1)
  {
    if n > 0 {
      SeededDefaults(start, n - 1);
    }
  }
}
