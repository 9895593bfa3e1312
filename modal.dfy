/** What the detail modal shows for a recipe record. */
module Modal {
  import opened RecipeData

  /** The fixed header row of the nutrition table. */
  const NutritionHeader: (string, string) := ("Nutrient", "Amount")

  /** The modal's contents: title, description, ingredient items, step items
      and nutrition table rows (header first). */
  datatype ModalContent = ModalContent(
    title: string,
    description: string,
    ingredients: seq<string>,
    steps: seq<string>,
    nutrition: seq<(string, string)>)

  /** The nutrition table: the header row, then one (nutrient, amount) row
      per key in key order; a missing nutrition object gives the header
      alone. */
  function NutritionRows(n: Option<Nutrition>): (rows: seq<(string, string)>)
    ensures |rows| == |GetOr(n, [])| + 1 && rows[0] == NutritionHeader
    ensures forall i :: 0 <= i < |GetOr(n, [])| ==> rows[i + 1] == GetOr(n, [])[i]
  {
    [NutritionHeader] + GetOr(n, [])
  }

  /** Dropping the header row gives back the record's nutrition entries. */
  lemma NutritionRowsRoundTrip(n: Nutrition)
    ensures NutritionRows(Some(n))[1..] == n
  {
  }

  /** The modal's contents for a record; absent text fields show as "" and
      absent lists as empty lists. */
  function Render(r: Recipe): ModalContent {
    ModalContent(
      GetOr(r.title, ""),
      GetOr(r.description, ""),
      GetOr(r.ingredients, []),
      GetOr(r.steps, []),
      NutritionRows(r.nutrition))
  }
}
