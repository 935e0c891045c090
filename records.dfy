/** One row of the consolidated sales-and-logistics table, and `load_data`,
    which recomputes each row's total profit from its own columns. */
module Records {

  /** The columns of `df_consolidado.csv` that the dashboard reads. Numeric
      columns are exact reals. `salePrice` is a per-unit price: the profit
      formula multiplies it by the quantity sold. */
  datatype Record = Record(
    transactionId: string,  // Transaccion_ID
    skuId: string,          // SKU_ID
    category: string,       // Categoria
    city: string,           // Ciudad_Destino
    salePrice: real,        // Precio_Venta_Final
    quantity: real,         // Cantidad_Vendida
    unitCost: real,         // Costo_Unitario_USD
    shipping: real,         // Costo_Envio
    nps: real,              // Satisfaccion_NPS; 0 means "no rating given"
    rating: real,           // Rating_Logistica; only values above 0 are real feedback
    deliveryTime: real,     // Tiempo_Entrega_Real
    shipmentStatus: string, // Estado_Envio
    profit: real)           // Utilidad_Total

  /** Revenue minus the cost of the goods minus shipping. */
  function Profit(r: Record): (p: real)
    ensures p == (r.salePrice - r.unitCost) * r.quantity - r.shipping
    ensures p < 0.0 <==> r.shipping > (r.salePrice - r.unitCost) * r.quantity
  {
    r.salePrice * r.quantity - r.unitCost * r.quantity - r.shipping
  }

  /** `load_data`: the table as read, with `Utilidad_Total` overwritten by
      the recomputed profit of each row. */
  function LoadData(raw: seq<Record>): (rows: seq<Record>)
    ensures |rows| == |raw|
    ensures forall i :: 0 <= i < |rows| ==>
      rows[i].profit == (raw[i].salePrice - raw[i].unitCost) * raw[i].quantity - raw[i].shipping
    ensures forall i :: 0 <= i < |rows| ==> rows[i].(profit := raw[i].profit) == raw[i]
  {
    seq(|raw|, i requires 0 <= i < |raw| => raw[i].(profit := Profit(raw[i])))
  }

  /** Every row of a loaded table already carries its own recomputed profit. */
  predicate ProfitsDerived(rows: seq<Record>) {
    forall i :: 0 <= i < |rows| ==> rows[i].profit == Profit(rows[i])
  }

  /** A loaded table satisfies the derivation, and loading it again changes
      nothing: the derived column depends on the other columns only. */
  lemma LoadDataIdempotent(raw: seq<Record>)
    ensures ProfitsDerived(LoadData(raw))
    ensures LoadData(LoadData(raw)) == LoadData(raw)
  {
    var rows := LoadData(raw);
    forall i | 0 <= i < |rows| ensures LoadData(rows)[i] == rows[i] {
      assert Profit(rows[i]) == Profit(raw[i]);
    }
  }

  function ProfitOf(r: Record): real { r.profit }
  function SalePriceOf(r: Record): real { r.salePrice }
  function NpsOf(r: Record): real { r.nps }
  function CityOf(r: Record): string { r.city }
  function CategoryOf(r: Record): string { r.category }
}
