/** The stand-alone qualified-name check: an access decorator must sit on a method of
    a class, which Python shows as a dotted `__qualname__`. */
module Validation {
  import opened Wrappers
  import opened Strings
  import opened DecoratorCommon

  /** The error text naming the decorator and the offending function. */
  function ModuleLevelMessage(decoratorName: string, functionName: string): (msg: string)
    ensures Contains(msg, decoratorName) && Contains(msg, functionName)
  {
    var head := "@";
    var middle := " decorator cannot be applied to module-level function '";
    var tail := "'. Access control decorators can only be used on class methods.";
    ContainsMiddle(head, decoratorName, middle + functionName + tail);
    ContainsMiddle(head + decoratorName + middle, functionName, tail);
    Regroup(head, decoratorName, middle, functionName, tail);
    head + decoratorName + middle + functionName + tail
  }

  /** Regrouping a concatenation of five strings. */
  lemma Regroup(a: string, b: string, c: string, d: string, e: string)
    ensures a + b + (c + d + e) == a + b + c + d + e
  {
  }

  /** `validate_method_usage`: raises exactly when a `__qualname__` is present and has
      fewer than two dot-separated parts, i.e. contains no dot; the error names both
      the decorator and the function. */
  function ValidateMethodUsage(f: FuncObj, decoratorName: string): (o: Outcome<string>)
    ensures o.Fail? <==> f.qualname.Some? && '.' !in f.qualname.value
    ensures o.Fail? ==> Contains(o.error, decoratorName) && Contains(o.error, f.name)
  {
    match f.qualname
    case None => Pass
    case Some(q) =>
      SplitHasManyParts(q, '.');
      if |Split(q, '.')| < 2 then Fail(ModuleLevelMessage(decoratorName, f.name)) else Pass
  }
}
