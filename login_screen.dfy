/**
 * The login screen: one selector table per platform, element getters that
 * resolve the current platform's selectors, and the login flows built from
 * the base screen's operations.
 */
module LoginScreen {
  import opened DriverTrace
  import opened Locators
  import opened BaseScreen

  const LoadTimeout := 15000

  datatype Selectors = Selectors(usernameInput: string, passwordInput: string, loginButton: string, errorMessage: string)

  /** `~input-email`, `~input-password`, `~button-LOGIN` and
      `~generic-error-message`: the Android table holds the same four
      accessibility ids as the iOS one. */
  function AndroidSelectors(): (s: Selectors)
    ensures s == IOSSelectors()
    ensures SelectorsAreAccessibilityIds(s)
  {
    Selectors(AccessibilityIdPrefix + "input-email", AccessibilityIdPrefix + "input-password",
              AccessibilityIdPrefix + "button-LOGIN", AccessibilityIdPrefix + "generic-error-message")
  }

  /** `~input-email`, `~input-password`, `~button-LOGIN` and
      `~generic-error-message`. */
  function IOSSelectors(): (s: Selectors)
    ensures SelectorsAreAccessibilityIds(s)
  {
    ClassifyAccessibilityId("input-email");
    ClassifyAccessibilityId("input-password");
    ClassifyAccessibilityId("button-LOGIN");
    ClassifyAccessibilityId("generic-error-message");
    Selectors(AccessibilityIdPrefix + "input-email", AccessibilityIdPrefix + "input-password",
              AccessibilityIdPrefix + "button-LOGIN", AccessibilityIdPrefix + "generic-error-message")
  }

  /** Every login selector is an accessibility id, and which one. */
  predicate SelectorsAreAccessibilityIds(s: Selectors) {
    && Classify(s.usernameInput) == AccessibilityId("input-email")
    && Classify(s.passwordInput) == AccessibilityId("input-password")
    && Classify(s.loginButton) == AccessibilityId("button-LOGIN")
    && Classify(s.errorMessage) == AccessibilityId("generic-error-message")
  }

  /** The platform screen the flows delegate to. Both platform screens inherit
      every operation used here from the base screen unchanged. */
  function Screen(d: Driver): (p: Platform)
    ensures (p == AndroidPlatform) <==> d.isAndroid
    ensures (p == IOSPlatform) <==> !d.isAndroid
  {
    PlatformOf(d)
  }

  /** The table picked by the same platform flag as `Screen`. The two tables
      agree, so the choice never changes a selector. */
  function CurrentSelectors(d: Driver): (s: Selectors)
    ensures s == AndroidSelectors() && s == IOSSelectors()
    ensures SelectorsAreAccessibilityIds(s)
  {
    if Screen(d) == AndroidPlatform then AndroidSelectors() else IOSSelectors()
  }

  /** `$(selector)` on the current table: resolving never fails and hands back
      the element for the selector, an accessibility id. */
  function UsernameInput(d: Driver): (r: Run<Element>)
    ensures r == Resolve(AndroidSelectors().usernameInput) && r == Resolve(IOSSelectors().usernameInput)
    ensures Resolved(r)
    ensures Classify(r.result.value.selector) == AccessibilityId("input-email")
  {
    Resolve(CurrentSelectors(d).usernameInput)
  }

  function PasswordInput(d: Driver): (r: Run<Element>)
    ensures r == Resolve(AndroidSelectors().passwordInput) && r == Resolve(IOSSelectors().passwordInput)
    ensures Resolved(r)
    ensures Classify(r.result.value.selector) == AccessibilityId("input-password")
  {
    Resolve(CurrentSelectors(d).passwordInput)
  }

  function LoginButton(d: Driver): (r: Run<Element>)
    ensures r == Resolve(AndroidSelectors().loginButton) && r == Resolve(IOSSelectors().loginButton)
    ensures Resolved(r)
    ensures Classify(r.result.value.selector) == AccessibilityId("button-LOGIN")
  {
    Resolve(CurrentSelectors(d).loginButton)
  }

  function ErrorMessage(d: Driver): (r: Run<Element>)
    ensures r == Resolve(AndroidSelectors().errorMessage) && r == Resolve(IOSSelectors().errorMessage)
    ensures Resolved(r)
    ensures Classify(r.result.value.selector) == AccessibilityId("generic-error-message")
  {
    Resolve(CurrentSelectors(d).errorMessage)
  }

  /** Look up the username field, wait for it, type: the value is set exactly
      when the wait succeeds, and a failure is the first refused command. */
  function EnterUsername(d: Driver, h: seq<Command>, username: string): (r: Run<()>)
    ensures var s := CurrentSelectors(d).usernameInput;
      && Follows(r, TypeOnScript(s, username))
      && (ElementSetValue(Element(s), username) in r.trace <==>
          d.ack(h + [Find(s)], WaitDisplayed(Element(s), DefaultTimeout)).Ok?)
    ensures FailsAtLast(d, h, r) && StopsAtFirstRefusal(d, h, r)
  {
    TypeOn(d, h, UsernameInput(d), username)
  }

  function EnterPassword(d: Driver, h: seq<Command>, password: string): (r: Run<()>)
    ensures var s := CurrentSelectors(d).passwordInput;
      && Follows(r, TypeOnScript(s, password))
      && (ElementSetValue(Element(s), password) in r.trace <==>
          d.ack(h + [Find(s)], WaitDisplayed(Element(s), DefaultTimeout)).Ok?)
    ensures FailsAtLast(d, h, r) && StopsAtFirstRefusal(d, h, r)
  {
    TypeOn(d, h, PasswordInput(d), password)
  }

  function TapLoginButton(d: Driver, h: seq<Command>): (r: Run<()>)
    ensures var s := CurrentSelectors(d).loginButton;
      && Follows(r, TapOnScript(s))
      && (ElementClick(Element(s)) in r.trace <==> d.ack(h + [Find(s)], WaitDisplayed(Element(s), DefaultTimeout)).Ok?)
    ensures FailsAtLast(d, h, r) && StopsAtFirstRefusal(d, h, r)
  {
    TapOn(d, h, LoginButton(d))
  }

  /** Everything `login` issues when nothing fails, with `keyboard` the commands
      the keyboard step issued. */
  function LoginScript(s: Selectors, username: string, password: string, keyboard: seq<Command>): seq<Command> {
    TypeOnScript(s.usernameInput, username) + TypeOnScript(s.passwordInput, password) + keyboard + TapOnScript(s.loginButton)
  }

  /** Username, password, keyboard, button, in that order. The run stops at
      the first refused command, the keyboard step never fails, and the
      keyboard is hidden exactly when the driver reported it shown. */
  function Login(d: Driver, h: seq<Command>, username: string, password: string): (r: Run<()>)
    ensures Follows(r, LoginScript(CurrentSelectors(d), username, password, [KeyboardShown])) ||
            Follows(r, LoginScript(CurrentSelectors(d), username, password, [KeyboardShown, KeyboardHide]))
    ensures FailsAtLast(d, h, r) && StopsAtFirstRefusal(d, h, r)
    ensures r.result.Err? ==> r.trace[|r.trace| - 1] != KeyboardShown && r.trace[|r.trace| - 1] != KeyboardHide
    ensures forall i | 0 <= i < |r.trace| && r.trace[i] == KeyboardShown ::
      (KeyboardHide in r.trace <==> d.flag(h + r.trace[..i], KeyboardShown) == Ok(true))
  {
    var s := CurrentSelectors(d);
    var user := EnterUsername(d, h, username);
    var pass := EnterPassword(d, h + user.trace, password);
    var keyboard := HideKeyboard(d, h + user.trace + pass.trace);
    var tap := TapLoginButton(d, h + user.trace + pass.trace + keyboard.trace);
    LoginComposes(d, h, s, user, pass, keyboard, tap, username, password);
    Then(user, Then(pass, Then(keyboard, tap)))
  }

  /** What each step promises, composed into what the login promises. */
  lemma LoginComposes(d: Driver, h: seq<Command>, s: Selectors, user: Run<()>, pass: Run<()>, keyboard: Run<()>, tap: Run<()>,
                      username: string, password: string)
    requires Follows(user, TypeOnScript(s.usernameInput, username))
    requires Follows(pass, TypeOnScript(s.passwordInput, password))
    requires keyboard == HideKeyboard(d, h + user.trace + pass.trace)
    requires Follows(tap, TapOnScript(s.loginButton))
    requires FailsAtLast(d, h, user) && StopsAtFirstRefusal(d, h, user)
    requires FailsAtLast(d, h + user.trace, pass) && StopsAtFirstRefusal(d, h + user.trace, pass)
    requires var g := h + user.trace + pass.trace + keyboard.trace;
      FailsAtLast(d, g, tap) && StopsAtFirstRefusal(d, g, tap)
    ensures var r := Then(user, Then(pass, Then(keyboard, tap)));
      && (Follows(r, LoginScript(s, username, password, [KeyboardShown])) ||
          Follows(r, LoginScript(s, username, password, [KeyboardShown, KeyboardHide])))
      && FailsAtLast(d, h, r) && StopsAtFirstRefusal(d, h, r)
      && (r.result.Err? ==> r.trace[|r.trace| - 1] != KeyboardShown && r.trace[|r.trace| - 1] != KeyboardHide)
      && (forall i | 0 <= i < |r.trace| && r.trace[i] == KeyboardShown ::
            (KeyboardHide in r.trace <==> d.flag(h + r.trace[..i], KeyboardShown) == Ok(true)))
  {
    LoginFollows(s, user, pass, keyboard, tap, username, password);
    LoginFailsAtLast(d, h, user, pass, keyboard, tap);
    LoginStops(d, h, user, pass, keyboard, tap);
    LoginKeyboard(d, h, s, user, pass, keyboard, tap, username, password);
  }

  /** The four steps in order make up the login script. */
  lemma LoginFollows(s: Selectors, user: Run<()>, pass: Run<()>, keyboard: Run<()>, tap: Run<()>, username: string, password: string)
    requires Follows(user, TypeOnScript(s.usernameInput, username))
    requires Follows(pass, TypeOnScript(s.passwordInput, password))
    requires keyboard.trace == [KeyboardShown] || keyboard.trace == [KeyboardShown, KeyboardHide]
    requires Follows(tap, TapOnScript(s.loginButton))
    ensures Follows(Then(user, Then(pass, Then(keyboard, tap))), LoginScript(s, username, password, keyboard.trace))
  {
    var k := keyboard.trace;
    var u, p, b := TypeOnScript(s.usernameInput, username), TypeOnScript(s.passwordInput, password), TapOnScript(s.loginButton);
    ThenFollows(keyboard, tap, k, b);
    ThenFollows(pass, Then(keyboard, tap), p, k + b);
    ThenFollows(user, Then(pass, Then(keyboard, tap)), u, p + (k + b));
    AppendAssoc(p, k, b);
    AppendAssoc(u, p + k, b);
    AppendAssoc(u, p, k);
  }

  /** Composing runs that each fail at their last command. */
  lemma LoginFailsAtLast(d: Driver, h: seq<Command>, user: Run<()>, pass: Run<()>, keyboard: Run<()>, tap: Run<()>)
    requires FailsAtLast(d, h, user)
    requires FailsAtLast(d, h + user.trace, pass)
    requires keyboard.result.Ok?
    requires FailsAtLast(d, h + user.trace + pass.trace + keyboard.trace, tap)
    ensures FailsAtLast(d, h, Then(user, Then(pass, Then(keyboard, tap))))
  {
    AppendAssoc(h, user.trace, pass.trace);
    ThenFailsAtLast(d, h + user.trace + pass.trace, keyboard, tap);
    ThenFailsAtLast(d, h + user.trace, pass, Then(keyboard, tap));
    ThenFailsAtLast(d, h, user, Then(pass, Then(keyboard, tap)));
  }

  /** No keyboard command among `t`. */
  predicate NoKeyboard(t: seq<Command>) {
    forall j | 0 <= j < |t| :: t[j] != KeyboardShown && t[j] != KeyboardHide
  }

  /** Composing runs that each stop at their first refused command. */
  lemma LoginStops(d: Driver, h: seq<Command>, user: Run<()>, pass: Run<()>, keyboard: Run<()>, tap: Run<()>)
    requires StopsAtFirstRefusal(d, h, user)
    requires StopsAtFirstRefusal(d, h + user.trace, pass)
    requires StopsAtFirstRefusal(d, h + user.trace + pass.trace, keyboard)
    requires StopsAtFirstRefusal(d, h + user.trace + pass.trace + keyboard.trace, tap)
    ensures StopsAtFirstRefusal(d, h, Then(user, Then(pass, Then(keyboard, tap))))
  {
    ThenStops(d, h + user.trace + pass.trace, keyboard, tap);
    ThenStops(d, h + user.trace, pass, Then(keyboard, tap));
    ThenStops(d, h, user, Then(pass, Then(keyboard, tap)));
  }

  /** The field and button steps, prefixes of their scripts, issue no
      keyboard command; so the keyboard step alone decides the hide. */
  lemma LoginKeyboard(d: Driver, h: seq<Command>, s: Selectors, user: Run<()>, pass: Run<()>, keyboard: Run<()>, tap: Run<()>,
                      username: string, password: string)
    requires user.trace <= TypeOnScript(s.usernameInput, username)
    requires pass.trace <= TypeOnScript(s.passwordInput, password)
    requires tap.trace <= TapOnScript(s.loginButton)
    requires keyboard == HideKeyboard(d, h + user.trace + pass.trace)
    ensures var r := Then(user, Then(pass, Then(keyboard, tap)));
      forall i | 0 <= i < |r.trace| && r.trace[i] == KeyboardShown ::
        (KeyboardHide in r.trace <==> d.flag(h + r.trace[..i], KeyboardShown) == Ok(true))
  {
    PrefixHasNoKeyboard(user.trace, TypeOnScript(s.usernameInput, username));
    PrefixHasNoKeyboard(pass.trace, TypeOnScript(s.passwordInput, password));
    PrefixHasNoKeyboard(tap.trace, TapOnScript(s.loginButton));
    LoginHidesShownKeyboard(d, h, user, pass, keyboard, tap);
  }

  lemma PrefixHasNoKeyboard(t: seq<Command>, script: seq<Command>)
    requires t <= script && NoKeyboard(script)
    ensures NoKeyboard(t)
  {
    forall j | 0 <= j < |t|
      ensures t[j] != KeyboardShown && t[j] != KeyboardHide
    {
      assert t[j] == script[j];
    }
  }

  /** The keyboard step issues the only keyboard commands of a login, so the
      one `isKeyboardShown` query is answered on the history the two field
      steps left, and a hide follows exactly when that answer was true. */
  lemma LoginHidesShownKeyboard(d: Driver, h: seq<Command>, user: Run<()>, pass: Run<()>, keyboard: Run<()>, tap: Run<()>)
    requires NoKeyboard(user.trace) && NoKeyboard(pass.trace) && NoKeyboard(tap.trace)
    requires keyboard == HideKeyboard(d, h + user.trace + pass.trace)
    ensures var r := Then(user, Then(pass, Then(keyboard, tap)));
      forall i | 0 <= i < |r.trace| && r.trace[i] == KeyboardShown ::
        (KeyboardHide in r.trace <==> d.flag(h + r.trace[..i], KeyboardShown) == Ok(true))
  {
    var r := Then(user, Then(pass, Then(keyboard, tap)));
    NoKeyboardAppend(user.trace, pass.trace);
    if user.result.Err? {
      assert r == user;
    } else if pass.result.Err? {
      assert r.trace == user.trace + pass.trace;
    } else {
      var pre := user.trace + pass.trace;
      assert r.trace == pre + keyboard.trace + tap.trace by {
        AppendAssoc(user.trace, pass.trace, keyboard.trace + tap.trace);
        AppendAssoc(pre, keyboard.trace, tap.trace);
      }
      KeyboardOnlyBetween(pre, keyboard.trace, tap.trace);
      AppendAssoc(h, user.trace, pass.trace);
    }
  }

  lemma NoKeyboardAppend(a: seq<Command>, b: seq<Command>)
    requires NoKeyboard(a) && NoKeyboard(b)
    ensures NoKeyboard(a + b)
  {
    forall j | 0 <= j < |a + b|
      ensures (a + b)[j] != KeyboardShown && (a + b)[j] != KeyboardHide
    {
      if j < |a| {
        assert (a + b)[j] == a[j];
      } else {
        assert (a + b)[j] == b[j - |a|];
      }
    }
  }

  /** Between two keyboard-free runs, a keyboard step's query is the only
      `isKeyboardShown`, and any hide is the step's own. */
  lemma KeyboardOnlyBetween(pre: seq<Command>, k: seq<Command>, post: seq<Command>)
    requires NoKeyboard(pre) && NoKeyboard(post)
    requires k <= [KeyboardShown, KeyboardHide]
    ensures forall i | 0 <= i < |pre + k + post| && (pre + k + post)[i] == KeyboardShown ::
      i == |pre| && (pre + k + post)[..i] == pre
    ensures KeyboardHide in pre + k + post <==> KeyboardHide in k
  {
    var t := pre + k + post;
    forall i | 0 <= i < |t|
      ensures t[i] == KeyboardShown ==> i == |pre| && t[..i] == pre
      ensures t[i] == KeyboardHide ==> |pre| <= i < |pre| + |k|
    {
      if i < |pre| {
        assert t[i] == pre[i];
      } else if i < |pre| + |k| {
        assert t[i] == k[i - |pre|];
        assert k[i - |pre|] == [KeyboardShown, KeyboardHide][i - |pre|];
        if i == |pre| {
          assert t[..i] == pre;
        }
      } else {
        assert t[i] == post[i - |pre| - |k|];
      }
    }
    if KeyboardHide in t {
      var i :| 0 <= i < |t| && t[i] == KeyboardHide;
      assert t[i] == k[i - |pre|];
    }
    if KeyboardHide in k {
      var j :| 0 <= j < |k| && k[j] == KeyboardHide;
      assert t[|pre| + j] == k[j];
    }
  }

  /** Once the username and password steps succeed, the button is always
      looked up: the keyboard step cannot stop the login. */
  lemma LoginReachesButton(d: Driver, h: seq<Command>, username: string, password: string)
    requires EnterUsername(d, h, username).result.Ok?
    requires EnterPassword(d, h + EnterUsername(d, h, username).trace, password).result.Ok?
    ensures Find(CurrentSelectors(d).loginButton) in Login(d, h, username, password).trace
  {
    var user := EnterUsername(d, h, username);
    var pass := EnterPassword(d, h + user.trace, password);
    var keyboard := HideKeyboard(d, h + user.trace + pass.trace);
    var tap := TapLoginButton(d, h + user.trace + pass.trace + keyboard.trace);
    var r := Login(d, h, username, password);
    var pre := user.trace + pass.trace + keyboard.trace;
    assert r.trace == pre + tap.trace by {
      AppendAssoc(user.trace, pass.trace, keyboard.trace + tap.trace);
      AppendAssoc(user.trace + pass.trace, keyboard.trace, tap.trace);
    }
    assert r.trace[|pre|] == tap.trace[0];
  }

  /** A failed username step aborts the login before anything else is issued. */
  lemma LoginAbortsAfterUsername(d: Driver, h: seq<Command>, username: string, password: string)
    requires EnterUsername(d, h, username).result.Err?
    ensures Login(d, h, username, password) == EnterUsername(d, h, username)
  {
  }

  /** Reads the error message once it is displayed: the text is the driver's
      answer, passed on unchanged, and a refused wait is the failure. */
  function GetErrorMessageText(d: Driver, h: seq<Command>): (r: Run<string>)
    ensures Follows(r, ReadOnScript(CurrentSelectors(d).errorMessage))
    ensures var el := Element(CurrentSelectors(d).errorMessage);
      d.ack(h + [Find(el.selector)], WaitDisplayed(el, DefaultTimeout)).Ok? ==>
        r.result == d.text(h + [Find(el.selector), WaitDisplayed(el, DefaultTimeout)], ElementText(el))
    ensures var el := Element(CurrentSelectors(d).errorMessage);
      d.ack(h + [Find(el.selector)], WaitDisplayed(el, DefaultTimeout)).Err? ==>
        r == Run([Find(el.selector), WaitDisplayed(el, DefaultTimeout)],
                 Err(d.ack(h + [Find(el.selector)], WaitDisplayed(el, DefaultTimeout)).error))
    ensures StopsAtFirstRefusal(d, h, r)
  {
    GetTextOn(d, h, ErrorMessage(d))
  }

  /** Never fails: the error message counts as hidden whenever the driver
      cannot tell. */
  function IsErrorMessageDisplayed(d: Driver, h: seq<Command>): (r: Run<bool>)
    ensures var el := Element(CurrentSelectors(d).errorMessage);
      && r.trace == [Find(el.selector), ElementDisplayed(el)] && r.result.Ok?
      && r.result.value == (d.flag(h + [Find(el.selector)], ElementDisplayed(el)) == Ok(true))
  {
    IsDisplayedOn(d, h, ErrorMessage(d))
  }

  /** The three form elements are awaited in order, each with the longer load
      timeout. */
  function LoadScript(s: Selectors): seq<Command> {
    AwaitOnScript(s.usernameInput, LoadTimeout) + AwaitOnScript(s.passwordInput, LoadTimeout)
      + AwaitOnScript(s.loginButton, LoadTimeout)
  }

  function WaitForScreenLoad(d: Driver, h: seq<Command>): (r: Run<()>)
    ensures Follows(r, LoadScript(CurrentSelectors(d)))
    ensures FailsAtLast(d, h, r) && StopsAtFirstRefusal(d, h, r)
  {
    var s := CurrentSelectors(d);
    var user := WaitOn(d, h, UsernameInput(d), LoadTimeout);
    var pass := WaitOn(d, h + user.trace, PasswordInput(d), LoadTimeout);
    var button := WaitOn(d, h + user.trace + pass.trace, LoginButton(d), LoadTimeout);
    ThenThree(d, h, user, pass, button, AwaitOnScript(s.usernameInput, LoadTimeout),
              AwaitOnScript(s.passwordInput, LoadTimeout), AwaitOnScript(s.loginButton, LoadTimeout));
    ThenThreeStops(d, h, user, pass, button);
    Then(user, Then(pass, button))
  }
}
