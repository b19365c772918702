/**
 * The product list view (components/ProductTable.tsx): the stock-status badge
 * derived from a quantity, and the table or empty state rendered for a list of
 * products, with edit and delete controls only for administrators.
 */
module ProductTable {
  import opened Wrappers
  import opened Api

  datatype Level = OutOfStock | LowStock | InStock {
    /** The badge text. */
    function Text(): string
    {
      match this
      case OutOfStock => "Out of Stock"
      case LowStock => "Low Stock"
      case InStock => "In Stock"
    }

    /** Position on the scale from empty to well stocked. */
    function Rank(): nat
    {
      match this
      case OutOfStock => 0
      case LowStock => 1
      case InStock => 2
    }
  }

  /** The badge style. */
  datatype Variant = Destructive | Secondary | Default

  datatype StockStatus = StockStatus(level: Level, variant: Variant)

  /** Quantities at or above this are "In Stock". */
  const LowStockLimit: int := 10

  /**
   * `getStockStatus`: zero is checked first, so every other quantity below the
   * limit, negative ones included, is "Low Stock".
   */
  function GetStockStatus(quantity: int): (s: StockStatus)
    ensures quantity == 0 <==> s == StockStatus(OutOfStock, Destructive)
    ensures quantity != 0 && quantity < LowStockLimit <==> s == StockStatus(LowStock, Secondary)
    ensures quantity >= LowStockLimit <==> s == StockStatus(InStock, Default)
    ensures quantity == 0 <==> s.level.Text() == "Out of Stock"
    ensures quantity != 0 && quantity < LowStockLimit <==> s.level.Text() == "Low Stock"
    ensures quantity >= LowStockLimit <==> s.level.Text() == "In Stock"
  {
    if quantity == 0 then StockStatus(OutOfStock, Destructive)
    else if quantity < LowStockLimit then StockStatus(LowStock, Secondary)
    else StockStatus(InStock, Default)
  }

  /**
   * The three-way classification of stock levels for quantities that are not
   * negative: out of stock at 0, low from 1 to 9, in stock from 10.
   */
  function ReferenceLevel(quantity: nat): Level
  {
    if quantity == 0 then OutOfStock
    else if quantity < 10 then LowStock
    else InStock
  }

  /** On quantities that are not negative the badge level is the three-way classification; negative ones are Low Stock. */
  lemma StatusMatchesReference(quantity: int)
    ensures quantity >= 0 ==> GetStockStatus(quantity).level == ReferenceLevel(quantity)
    ensures quantity < 0 ==> GetStockStatus(quantity).level == LowStock
  {
  }

  /**
   * Among quantities that are not negative, more stock never yields a worse
   * badge, and 9 and 10 sit on either side of the limit. The order breaks
   * below zero: -1 ranks above 0, since only 0 itself is Out of Stock.
   */
  lemma StatusMonotone(q1: int, q2: int)
    requires 0 <= q1 <= q2
    ensures GetStockStatus(q1).level.Rank() <= GetStockStatus(q2).level.Rank()
    ensures GetStockStatus(9).level == LowStock && GetStockStatus(10).level == InStock
    ensures GetStockStatus(-1).level.Rank() > GetStockStatus(0).level.Rank()
  {
  }

  /** What the Edit and Delete buttons of a row hand to `onEdit` and `onDelete`. */
  datatype RowActions = RowActions(editArg: Product, deleteArg: int)

  /** One table row: its React key, the five value cells, and the optional action cell. */
  datatype Row = Row(
    key: int,
    name: string,
    unitPrice: real,
    quantity: int,
    status: StockStatus,
    totalValue: real,
    actions: Option<RowActions>)

  datatype View =
    | EmptyState(title: string, message: string)
    | Table(header: seq<string>, rows: seq<Row>)

  const EmptyTitle: string := "No products found"
  const AdminEmptyMessage: string := "Start by adding your first product."
  const VisitorEmptyMessage: string := "No products are currently available."
  const ActionsColumn: string := "Actions"
  const ValueColumns: seq<string> := ["Product Name", "Price", "Quantity", "Status", "Total Value"]

  /** `r` is the row the table draws for `p`. */
  ghost predicate Shows(r: Row, p: Product, isAdmin: bool)
  {
    && r.key == p.id
    && r.name == p.name
    && r.unitPrice == p.unitPrice
    && r.quantity == p.quantity
    && r.status == GetStockStatus(p.quantity)
    && r.totalValue == p.unitPrice * p.quantity as real
    && (r.actions.Some? <==> isAdmin)
    && (r.actions.Some? ==> r.actions.value == RowActions(p, p.id))
  }

  function RowFor(p: Product, isAdmin: bool): Row
  {
    Row(p.id, p.name, p.unitPrice, p.quantity, GetStockStatus(p.quantity),
        p.unitPrice * p.quantity as real,
        if isAdmin then Some(RowActions(p, p.id)) else None)
  }

  /** `products.map(...)`: one row per product, in the order given. */
  function Rows(products: seq<Product>, isAdmin: bool): (rows: seq<Row>)
    ensures |rows| == |products|
    ensures forall i :: 0 <= i < |products| ==> Shows(rows[i], products[i], isAdmin)
  {
    if products == [] then []
    else [RowFor(products[0], isAdmin)] + Rows(products[1..], isAdmin)
  }

  /** The whole component for a product list and an `isAdmin` flag. */
  function Render(products: seq<Product>, isAdmin: bool): (v: View)
    ensures v.EmptyState? <==> products == []
    ensures v.EmptyState? ==> v.title == EmptyTitle && (v.message == AdminEmptyMessage <==> isAdmin)
    ensures v.EmptyState? && !isAdmin ==> v.message == VisitorEmptyMessage
    ensures v.Table? ==> (ActionsColumn in v.header <==> isAdmin)
    ensures v.Table? ==> |v.rows| == |products|
    ensures v.Table? ==> forall i :: 0 <= i < |products| ==> Shows(v.rows[i], products[i], isAdmin)
  {
    if |products| == 0 then
      EmptyState(EmptyTitle, if isAdmin then AdminEmptyMessage else VisitorEmptyMessage)
    else
      Table(ValueColumns + (if isAdmin then [ActionsColumn] else []), Rows(products, isAdmin))
  }

  /** Without the admin flag nothing the view draws can reach `onEdit` or `onDelete`. */
  lemma VisitorSeesNoActions(products: seq<Product>)
    ensures Render(products, false).Table? ==> ActionsColumn !in Render(products, false).header
    ensures Render(products, false).Table? ==>
      forall i :: 0 <= i < |Render(products, false).rows| ==> Render(products, false).rows[i].actions.None?
  {
  }

  /** With the admin flag, row `i`'s buttons edit exactly product `i` and delete exactly its id. */
  lemma AdminActionsTargetTheirRow(products: seq<Product>, i: int)
    requires 0 <= i < |products|
    ensures Render(products, true).Table?
    ensures Render(products, true).rows[i].actions == Some(RowActions(products[i], products[i].id))
  {
  }
}
