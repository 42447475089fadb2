/** The inventory dashboard: summary statistics over the catalog and the
    per-row stock status. */
module Dashboard {
  import opened Seqs
  import opened Catalog

  /** Below this many units a product counts as low on stock. */
  const LowStockThreshold: int := 10

  /** `stats` without its `lastUpdated` clock reading. */
  datatype Stats = Stats(
    totalProducts: nat,
    lowStockProducts: nat,
    outOfStockProducts: nat,
    totalInventoryValue: int)

  datatype DashboardData = DashboardData(stats: Stats, lowStockItems: seq<Product>, products: seq<Product>)

  function IsLowStock(p: Product): bool { p.inventory < LowStockThreshold }

  function IsOutOfStock(p: Product): bool { p.inventory == 0 }

  function StockValue(p: Product): int { p.price * p.inventory }

  /** `getDashboardData`. */
  function GetDashboardData(ps: seq<Product>): (d: DashboardData)
    ensures d.products == ps
    ensures d.stats.totalProducts == |ps|
    ensures d.stats.lowStockProducts == |d.lowStockItems|
    ensures forall p :: p in d.lowStockItems <==> p in ps && p.inventory < LowStockThreshold
    ensures d.stats.outOfStockProducts <= d.stats.lowStockProducts <= d.stats.totalProducts
  {
    FilterMonotone(ps, IsOutOfStock, IsLowStock);
    var low := Filter(ps, IsLowStock);
    DashboardData(
      Stats(|ps|, |low|, |Filter(ps, IsOutOfStock)|, Sum(ps, StockValue)),
      low,
      ps)
  }

  /** The low-stock list holds every copy of a product under the threshold, and no other product. */
  lemma LowStockCounts(ps: seq<Product>, p: Product)
    ensures Count(GetDashboardData(ps).lowStockItems, p) == if p.inventory < LowStockThreshold then Count(ps, p) else 0
  {
    FilterMultiplicity(ps, IsLowStock, p);
  }

  /** The low-stock list keeps catalog order. */
  lemma LowStockKeepsOrder(ps: seq<Product>)
    ensures IsSubsequence(GetDashboardData(ps).lowStockItems, ps)
  {
    FilterIsSubsequence(ps, IsLowStock);
  }

  /** The value of an empty catalog is 0, and that of a one-product catalog
      is its price times its stock. */
  lemma InventoryValueBase(p: Product)
    ensures GetDashboardData([]).stats.totalInventoryValue == 0
    ensures GetDashboardData([p]).stats.totalInventoryValue == p.price * p.inventory
  {
    assert [p][1..] == [];
  }

  /** Together with `InventoryValueBase`, this pins the inventory value: it
      is additive over catalogs, and non-negative for non-negative prices and
      stock. */
  lemma InventoryValue(ps: seq<Product>, more: seq<Product>)
    ensures GetDashboardData(ps + more).stats.totalInventoryValue ==
      GetDashboardData(ps).stats.totalInventoryValue + GetDashboardData(more).stats.totalInventoryValue
    ensures (forall p :: p in ps ==> p.price >= 0 && p.inventory >= 0) ==>
      GetDashboardData(ps).stats.totalInventoryValue >= 0
  {
    SumAppend(ps, more, StockValue);
    if forall p :: p in ps ==> p.price >= 0 && p.inventory >= 0 {
      SumNonNegative(ps, StockValue);
    }
  }

  /** The badge of a table row. */
  datatype StockStatus = OutOfStock | LowStock | InStock

  function Status(inventory: int): (s: StockStatus)
    ensures s == OutOfStock <==> inventory == 0
    ensures s == LowStock <==> inventory != 0 && inventory < LowStockThreshold
    ensures s == InStock <==> inventory >= LowStockThreshold
  {
    if inventory == 0 then OutOfStock
    else if inventory < LowStockThreshold then LowStock
    else InStock
  }

  function StatusLabel(s: StockStatus): string {
    match s
    case OutOfStock => "Out of Stock"
    case LowStock => "Low Stock"
    case InStock => "In Stock"
  }

  /** Each badge text names exactly one status, so the text shown tells
      the stock level apart as `Status` does. */
  lemma BadgeText(inventory: int)
    ensures StatusLabel(Status(inventory)) == "Out of Stock" <==> inventory == 0
    ensures StatusLabel(Status(inventory)) == "Low Stock" <==> inventory != 0 && inventory < LowStockThreshold
    ensures StatusLabel(Status(inventory)) == "In Stock" <==> inventory >= LowStockThreshold
  {
  }

  function NeedsAttention(p: Product): bool { Status(p.inventory) != InStock }

  function HasNoStock(p: Product): bool { Status(p.inventory) == OutOfStock }

  /** The summary counts agree with the row badges: the low-stock count is
      the number of rows not "In Stock", the out-of-stock count the number
      of rows "Out of Stock". */
  lemma StatsAgreeWithBadges(ps: seq<Product>)
    ensures GetDashboardData(ps).stats.lowStockProducts == |Filter(ps, NeedsAttention)|
    ensures GetDashboardData(ps).stats.outOfStockProducts == |Filter(ps, HasNoStock)|
  {
    FilterCongruent(ps, IsLowStock, NeedsAttention);
    FilterCongruent(ps, IsOutOfStock, HasNoStock);
  }
}
