/**
 * The iOS screen: predicate-string, class-chain, accessibility-id and
 * label selector builders. Every builder resolves its selector with `$`.
 */
module IOSScreen {
  import opened DriverTrace
  import opened Locators

  function GetElementByPredicate(predicateString: string): (r: Run<Element>)
    ensures Resolved(r)
    ensures Classify(r.result.value.selector) == Predicate(predicateString)
  {
    ClassifyPredicate(predicateString);
    Resolve("-ios predicate string:" + predicateString)
  }

  function GetElementByClassChain(classChain: string): (r: Run<Element>)
    ensures Resolved(r)
    ensures Classify(r.result.value.selector) == ClassChain(classChain)
  {
    ClassifyClassChain(classChain);
    Resolve("-ios class chain:" + classChain)
  }

  function GetElementByAccessibilityId(accessibilityId: string): (r: Run<Element>)
    ensures Resolved(r)
    ensures Classify(r.result.value.selector) == AccessibilityId(accessibilityId)
  {
    ClassifyAccessibilityId(accessibilityId);
    Resolve("~" + accessibilityId)
  }

  /** The predicate `label == "<label>"`, read back: the label it compares with. */
  function LabelOf(condition: string): Option<string> {
    var open := "label == \"";
    if open <= condition && |condition| > |open| && condition[|condition| - 1] == '"' then
      Some(condition[|open|..|condition| - 1])
    else
      None
  }

  function GetElementByLabel(labelText: string): (r: Run<Element>)
    ensures Resolved(r)
    ensures var s := Classify(r.result.value.selector);
      s.Predicate? && LabelOf(s.condition) == Some(labelText)
  {
    var condition := "label == \"" + labelText + "\"";
    assert condition == "label == \"" + (labelText + "\"");
    PrefixRest("label == \"", labelText + "\"");
    assert condition[|"label == \""|..|condition| - 1] == labelText;
    GetElementByPredicate(condition)
  }

  /** Every iOS selector starts with one of the three iOS prefixes. */
  lemma IOSSelectorPrefixes(arg: string)
    ensures PredicatePrefix <= GetElementByPredicate(arg).result.value.selector
    ensures ClassChainPrefix <= GetElementByClassChain(arg).result.value.selector
    ensures AccessibilityIdPrefix <= GetElementByAccessibilityId(arg).result.value.selector
    ensures PredicatePrefix <= GetElementByLabel(arg).result.value.selector
  {
    PrefixRest(PredicatePrefix, arg);
    PrefixRest(ClassChainPrefix, arg);
    PrefixRest(AccessibilityIdPrefix, arg);
    PrefixRest(PredicatePrefix, "label == \"" + arg + "\"");
  }
}
