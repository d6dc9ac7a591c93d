/** A composite data element: its components, and the qualifier, value and
    format that conventionally occupy its first three components. */
module CompositeElements {
  import opened Strings
  import opened Wrappers
  import BasicSegment

  datatype CompositeElement = CompositeElement(
    components: seq<string>,
    qualifier: string,
    value: string,
    format: string)
  {
    /** The component at a 1-based position, or an error out of range. */
    function GetComponent(position: int): (r: Result<string>)
      ensures r.Success? <==> 1 <= position <= |components|
      ensures r.Success? ==> r.value == components[position - 1]
      ensures r.Failure? ==> r.error == "component position " + IntToString(position) + " out of range"
    {
      if position < 1 || position > |components| then
        Failure("component position " + IntToString(position) + " out of range")
      else
        Success(components[position - 1])
    }

    function GetComponentCount(): int
    {
      |components|
    }

    /** A position is empty when it is out of range or its component is "". */
    function IsEmptyComponent(position: int): (r: bool)
      ensures r <==> GetComponent(position).Failure? || GetComponent(position).value == ""
    {
      if position < 1 || position > |components| then true
      else components[position - 1] == ""
    }

    function ToString(d: BasicSegment.Delimiters): string
    {
      Join(components, d.componentSeparator)
    }
  }

  /** Qualifier, value and format are the first three components when they
      exist, and "" otherwise. */
  predicate Consistent(e: CompositeElement, c: char)
  {
    && |e.components| >= 1
    && (forall i :: 0 <= i < |e.components| ==> c !in e.components[i])
    && e.qualifier == e.components[0]
    && e.value == (if |e.components| >= 2 then e.components[1] else "")
    && e.format == (if |e.components| >= 3 then e.components[2] else "")
  }

  function ParseCompositeElement(elementStr: string, d: BasicSegment.Delimiters): (r: CompositeElement)
    ensures Consistent(r, d.componentSeparator)
  {
    var components := Split(elementStr, d.componentSeparator);
    CompositeElement(
      components,
      if |components| >= 1 then components[0] else "",
      if |components| >= 2 then components[1] else "",
      if |components| >= 3 then components[2] else "")
  }

  /** A parsed element writes back to the text it was parsed from, and has
      one component more than the text has component separators. */
  lemma ToStringParse(elementStr: string, d: BasicSegment.Delimiters)
    ensures ParseCompositeElement(elementStr, d).ToString(d) == elementStr
    ensures ParseCompositeElement(elementStr, d).GetComponentCount() == CountChar(elementStr, d.componentSeparator) + 1
  {
    JoinSplit(elementStr, d.componentSeparator);
    SplitCount(elementStr, d.componentSeparator);
  }

  /** Parsing the text of a consistent element gives back that element. */
  lemma ParseToString(e: CompositeElement, d: BasicSegment.Delimiters)
    requires Consistent(e, d.componentSeparator)
    ensures ParseCompositeElement(e.ToString(d), d) == e
  {
    SplitJoin(e.components, d.componentSeparator);
  }

  /** The date/time element 137:20231201:102 has qualifier 137, value
      20231201 and format 102. */
  lemma DateTimeExample()
    ensures ParseCompositeElement("137:20231201:102", BasicSegment.Standard)
      == CompositeElement(["137", "20231201", "102"], "137", "20231201", "102")
  {
    var e := CompositeElement(["137", "20231201", "102"], "137", "20231201", "102");
    calc {
      e.ToString(BasicSegment.Standard);
      "137" + ":" + Join(["20231201", "102"], ':');
      "137" + ":" + "20231201" + ":" + Join(["102"], ':');
      "137:20231201:102";
    }
    ParseToString(e, BasicSegment.Standard);
  }
}
