/** A reservation type of the catalog, and the JSON object it is served as. */
module ReservationTypeModels {
  import opened Json

  /** `DepositAmount` is a C# `decimal`: an exact number, modelled as a `real`. `typeLabel` is the `Label` property. */
  datatype ReservationType = ReservationType(
    typeLabel: string,
    value: string,
    description: string,
    depositAmount: real,
    isActive: bool)

  /** `new ReservationType()`: empty texts, no deposit, active. */
  function NewReservationType(): (t: ReservationType)
    ensures t.typeLabel == "" && t.value == "" && t.description == ""
    ensures t.depositAmount == 0.0 && t.isActive
  {
    ReservationType("", "", "", 0.0, true)
  }

  /**
   * The object the default serialiser writes: property names as declared
   * (PascalCase), which are the names the browser client reads.
   */
  function ToJson(t: ReservationType): (j: JsonValue)
    ensures j.Obj? && j.fields.Keys == {"Label", "Value", "Description", "DepositAmount", "IsActive"}
    ensures Get(j, "Label") == Str(t.typeLabel) && Get(j, "Value") == Str(t.value)
    ensures Get(j, "Description") == Str(t.description)
    ensures Get(j, "DepositAmount") == Number(t.depositAmount) && Get(j, "IsActive") == Bool(t.isActive)
  {
    Obj(map[
      "Label" := Str(t.typeLabel),
      "Value" := Str(t.value),
      "Description" := Str(t.description),
      "DepositAmount" := Number(t.depositAmount),
      "IsActive" := Bool(t.isActive)])
  }
}
