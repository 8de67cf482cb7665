/**
 * How a selector string is read by the element-query primitive: its prefix
 * picks the locator strategy and the rest is the query handed to that
 * strategy. This is the reference the selector builders are checked against.
 */
module Locators {
  import opened DriverTrace

  const UiAutomatorPrefix := "android="
  const PredicatePrefix := "-ios predicate string:"
  const ClassChainPrefix := "-ios class chain:"
  const AccessibilityIdPrefix := "~"

  datatype Strategy =
    | UiAutomator(expression: string)
    | Predicate(condition: string)
    | ClassChain(chain: string)
    | AccessibilityId(id: string)
    | XPath(path: string)
    | Other(selector: string)

  function Classify(s: string): Strategy {
    if UiAutomatorPrefix <= s then UiAutomator(s[|UiAutomatorPrefix|..])
    else if PredicatePrefix <= s then Predicate(s[|PredicatePrefix|..])
    else if ClassChainPrefix <= s then ClassChain(s[|ClassChainPrefix|..])
    else if AccessibilityIdPrefix <= s then AccessibilityId(s[|AccessibilityIdPrefix|..])
    else if "/" <= s then XPath(s)
    else Other(s)
  }

  /** The attribute a `new UiSelector().<attribute>("<value>")` call matches on. */
  datatype UiAttribute = ResourceId | Text | Description

  function AttributeName(a: UiAttribute): string {
    match a
    case ResourceId => "resourceId"
    case Text => "text"
    case Description => "description"
  }

  function CallPrefix(a: UiAttribute): string {
    "new UiSelector()." + AttributeName(a) + "(\""
  }

  const CallSuffix := "\")"

  /** Reads a UiAutomator expression back as a single-attribute UiSelector call. */
  function ParseUiSelector(e: string): Option<(UiAttribute, string)> {
    if |e| >= |CallSuffix| && e[|e| - |CallSuffix|..] == CallSuffix then
      var body := e[..|e| - |CallSuffix|];
      if CallPrefix(ResourceId) <= body then Some((ResourceId, body[|CallPrefix(ResourceId)|..]))
      else if CallPrefix(Text) <= body then Some((Text, body[|CallPrefix(Text)|..]))
      else if CallPrefix(Description) <= body then Some((Description, body[|CallPrefix(Description)|..]))
      else None
    else None
  }

  /** Two different attributes' call prefixes already differ at the attribute name. */
  lemma CallPrefixesDiffer(a: UiAttribute, b: UiAttribute, v: string)
    requires a != b
    ensures !(CallPrefix(a) <= CallPrefix(b) + v)
  {
    var k := |"new UiSelector()."|;
    assert CallPrefix(a)[k] == AttributeName(a)[0];
    assert (CallPrefix(b) + v)[k] == AttributeName(b)[0];
  }

  lemma {:induction false} ParseCall(a: UiAttribute, value: string)
    ensures ParseUiSelector(CallPrefix(a) + value + CallSuffix) == Some((a, value))
  {
    var e := CallPrefix(a) + value + CallSuffix;
    var body := CallPrefix(a) + value;
    assert e == body + CallSuffix;
    assert e[..|e| - |CallSuffix|] == body;
    assert e[|e| - |CallSuffix|..] == CallSuffix;
    PrefixRest(CallPrefix(a), value);
    match a
    case ResourceId =>
    case Text =>
      CallPrefixesDiffer(ResourceId, Text, value);
    case Description =>
      CallPrefixesDiffer(ResourceId, Description, value);
      CallPrefixesDiffer(Text, Description, value);
  }

  lemma ClassifyUiAutomator(e: string)
    ensures Classify(UiAutomatorPrefix + e) == UiAutomator(e)
  {
    PrefixRest(UiAutomatorPrefix, e);
  }

  lemma ClassifyPredicate(c: string)
    ensures Classify(PredicatePrefix + c) == Predicate(c)
  {
    PrefixRest(PredicatePrefix, c);
    assert (PredicatePrefix + c)[0] != UiAutomatorPrefix[0];
  }

  lemma ClassifyClassChain(c: string)
    ensures Classify(ClassChainPrefix + c) == ClassChain(c)
  {
    PrefixRest(ClassChainPrefix, c);
    assert (ClassChainPrefix + c)[0] != UiAutomatorPrefix[0];
    assert (ClassChainPrefix + c)[5] != PredicatePrefix[5];
  }

  lemma ClassifyAccessibilityId(id: string)
    ensures Classify(AccessibilityIdPrefix + id) == AccessibilityId(id)
  {
    PrefixRest(AccessibilityIdPrefix, id);
    assert (AccessibilityIdPrefix + id)[0] != UiAutomatorPrefix[0];
    assert (AccessibilityIdPrefix + id)[0] != PredicatePrefix[0];
    assert (AccessibilityIdPrefix + id)[0] != ClassChainPrefix[0];
  }

  lemma ClassifyXPath(s: string)
    requires |s| > 0 && s[0] == '/'
    ensures Classify(s) == XPath(s)
  {
    assert s[0] != UiAutomatorPrefix[0];
    assert s[0] != PredicatePrefix[0];
    assert s[0] != ClassChainPrefix[0];
    assert s[0] != AccessibilityIdPrefix[0];
    assert s[..1] == "/";
  }

  /** A selector made of `prefix` followed by `rest` keeps `rest` verbatim after it. */
  lemma PrefixRest(prefix: string, rest: string)
    ensures prefix <= prefix + rest
    ensures (prefix + rest)[|prefix|..] == rest
  {
    assert (prefix + rest)[..|prefix|] == prefix;
  }
}
