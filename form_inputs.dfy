/** The form-builder's field types and the per-field validator `inputIssues`. */
module FormInputs {

  /** What a field collects: a choice among listed values, or a number. */
  datatype InputData = Choice(values: seq<string>) | Number

  datatype InputField = InputField(description: string, data: InputData)

  datatype Form = Form(title: string, inputs: seq<InputField>)

  const DescriptionRequired: string := ": Description is required"
  const EnumValuesRequired: string := ": Enum values are required"

  /** A choice field that lists no values. */
  predicate LacksValues(data: InputData)
  {
    data.Choice? && |data.values| == 0
  }

  /**
   * The issues of one field, each prefixed by the field's id: a missing
   * description first, then, for a choice field, an empty value list.
   */
  function InputIssues(input: InputField, id: string): (issues: seq<string>)
    ensures |issues| <= 2
    ensures forall k :: 0 <= k < |issues| ==> id <= issues[k]
    ensures (id + DescriptionRequired in issues) <==> |input.description| == 0
    ensures (id + EnumValuesRequired in issues) <==> LacksValues(input.data)
    ensures forall k :: 0 <= k < |issues| ==>
              issues[k] == id + DescriptionRequired || issues[k] == id + EnumValuesRequired
    ensures |issues| == 2 ==> issues == [id + DescriptionRequired, id + EnumValuesRequired]
    ensures input.data.Number? ==> issues == if |input.description| == 0 then [id + DescriptionRequired] else []
    ensures issues == [] <==> |input.description| > 0 && (input.data.Number? || |input.data.values| > 0)
  {
    var descriptionIssues := if |input.description| == 0 then [id + DescriptionRequired] else [];
    var dataIssues :=
      match input.data
      case Choice(values) => if |values| == 0 then [id + EnumValuesRequired] else []
      case Number => [];
    descriptionIssues + dataIssues
  }
}
