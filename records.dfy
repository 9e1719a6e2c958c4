/** The two tables of the ledger and their fixed vocabularies.

    A movement ("movimiento") is one row of the movements table, a budget
    ("presupuesto") one row of the budgets table. Both tables are kept in
    stored order, as the rows of their files are.
 */
module Records {

  /** The conventional optional value. */
  datatype Option<+T> = None | Some(value: T)

  /** A calendar date as its year, month and day numbers. */
  datatype Date = Date(year: int, month: int, day: int)

  /** One income or expense entry. `kind` is the text of the "Tipo" column:
      the entry form writes only `ExpenseKind` or `IncomeKind`, but a restored
      file may hold any text there. */
  datatype Movement = Movement(date: Date, kind: string, category: string, concept: string, amount: real)

  /** A category's monthly spending ceiling ("Limite_Mensual"). */
  datatype Budget = Budget(category: string, limit: real)

  const ExpenseKind: string := "Gasto"
  const IncomeKind: string := "Ingreso"

  /** Column names of the movements file, in file order. */
  const MovementColumns: seq<string> := ["Fecha", "Tipo", "Categoria", "Concepto", "Monto"]

  /** Column names of the budgets file, in file order. */
  const BudgetColumns: seq<string> := ["Categoria", "Limite_Mensual"]

  /** The built-in category vocabulary, in its declared (unsorted) order. */
  const Categories: seq<string> := [
    "Vivienda (Renta/Mtto)", "Servicios (Luz/Agua/Gas)", "Telecom (Telcel/Internet)", "Celdas Solares",
    "Supermercado", "Comidas Fuera (Restaurantes)", "Delivery (Rappi/UberEats)",
    "Auto (Gasolina/Casetas)", "Crédito Auto (BYD)", "Mantenimiento Auto/Trámites", "Transporte App (Uber/Didi)",
    "Salud (Médico/Farmacia)", "Psicóloga", "Cuidado Personal (Barber/Ropa)", "Mascotas (Veterinaria/Alimento)",
    "Suscripciones (Netflix/Spotify/YouTube)", "Software/AI (ChatGPT/iCloud)", "Tecnología (Gadgets/Computación)",
    "Pago Tarjeta (BBVA/AMEX/Banorte)", "Préstamos Personales (Paco/PAX)", "Créditos Bancarios", "Ahorro/Inversión (Cetes/Apartados)",
    "Diversión & Salidas", "Viajes & Vacaciones",
    "Nómina (UNAM)", "Otros Ingresos (Bonos/Aguinaldo)", "Préstamos Recibidos"
  ]

  /** An uploaded file as the parser hands it over: either it could not be
      read at all, or it is a table with a header of column names and rows. */
  datatype Upload<T> = Unreadable | Table(columns: seq<string>, rows: seq<T>)

  /** The categories of a budgets table, in stored order. */
  function BudgetCategories(bs: seq<Budget>): seq<string> {
    seq(|bs|, i requires 0 <= i < |bs| => bs[i].category)
  }
}
