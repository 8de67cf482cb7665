# Appium screen objects and gestures, modelled in Dafny

This project models the core of a WebdriverIO/Appium mobile test framework:
- the gesture helper: swipes, element swipes, long press, taps, double tap, and the bounded scroll-until-visible loop;
- the base screen that every screen object shares;
- the Android and iOS selector builders;
- the login and home page objects.

Every interaction with the remote driver is a `Command` appended to a trace (`driver_trace.dfy`).

The driver is an oracle:
- each of its answers is a function of the commands already issued and the command asked;
- an operation is a function from the driver and that history to a `Run`, which holds the commands it issued and its outcome;
- `Then` composes two awaited steps, and a failure aborts the rest.

The predicates used throughout:
- `Follows(r, script)` says the run performed a prefix of `script`, and all of it when it succeeded.
- `FailsAtLast` says a failed run stopped at the command the driver refused, reading that refusal as the acknowledgement `d.ack`. It therefore describes runs whose failing command is acknowledged (waits, clicks, values set, touches, key codes), not probes or text reads.
- `StopsAtFirstRefusal` says more, in both directions: no command before the last was refused, and the run failed if and only if its last command was refused. `Refused` judges a command by the driver's answer to it. A lookup, a pause and the keyboard commands are never refused.

Selector strings are checked against `Locators.Classify`, an independent reading of a selector by its strategy prefix:
- `android=` is UiAutomator;
- `-ios predicate string:` is a predicate;
- `-ios class chain:` is a class chain;
- `~` is an accessibility id;
- a leading `/` is XPath.

`Locators.ParseUiSelector` reads a `new UiSelector().attr("value")` call back into the attribute and value it was built from.

Modules:
- `DriverTrace`: commands, runs, strokes, and touch-list encoding and decoding.
- `Locators`: selector strategies.
- `GestureHelper`
- `BaseScreen`
- `AndroidScreen`
- `IOSScreen`
- `LoginScreen`
- `HomeScreen`

`GestureHelper.ScrollToElement` is a method with the source's `while` loop. It is proved equal to the recursive specification `GestureHelper.Scrolling`, and the loop's properties are lemmas about `Scrolling`. Everything else is straight-line code and is modelled with functions.

The doc comment of `swipeUp` (src/utils/GestureHelper.ts:28-31) calls `percentage` the "percentage of screen to swipe". The code starts at `height * (1 - percentage / 2)` and ends at `height * (percentage / 2)`, so the drag covers `1 - percentage` of the height. For the default 0.6 it goes from 70% to 30%. The model follows the code: `GestureHelper.SwipeUpDefault` states the 70% → 30% drag, and `GestureHelper.SwipeUp` the `height * (1 - percentage)` travel.

## Model

| member | source | states |
|---|---|---|
| GestureHelper.Swipe | src/utils/GestureHelper.ts:13-26 | Exactly one `touchPerform` of four actions in order: press at the start, wait `duration` (500 by default), move to the end, release. The outcome is the driver's answer to it. |
| GestureHelper.SwipeUp | src/utils/GestureHelper.ts:32-37 | A window query, then one 500 ms drag on the vertical centre line. Its ends are symmetric about the middle height and apart by `height * (1 - percentage)`, start below end for 0 < percentage < 1 and a positive height (see `SwipeUpMovesUp`). A failed query aborts with no touch. |
| GestureHelper.SwipeDown | src/utils/GestureHelper.ts:43-48 | As `SwipeUp`, with the end below the start for 0 < percentage < 1 and a positive height. |
| GestureHelper.SwipeLeft | src/utils/GestureHelper.ts:54-59 | A drag on the horizontal centre line. Its ends are symmetric about the middle width and apart by `width * (1 - percentage)`, moving leftwards for 0 < percentage < 1 and a positive width. |
| GestureHelper.SwipeRight | src/utils/GestureHelper.ts:65-70 | As `SwipeLeft`, moving rightwards for 0 < percentage < 1 and a positive width. |
| GestureHelper.SwipeUpMovesUp | src/utils/GestureHelper.ts:32-37 | For 0 < percentage < 1 and a positive height, the start is strictly below the end and the travel is shorter than the height. |
| GestureHelper.SwipeUpDefault | src/utils/GestureHelper.ts:32-37 | With the default 0.6 the upward swipe goes from 70% to 30% of the height, held 500 ms. |
| GestureHelper.SwipeDownReversesUp | src/utils/GestureHelper.ts:32-48 | The downward drag is the upward drag with its ends exchanged. |
| GestureHelper.SwipeRightReversesLeft | src/utils/GestureHelper.ts:54-70 | The rightward drag is the leftward drag with its ends exchanged. |
| GestureHelper.SwipeLeftTransposesUp | src/utils/GestureHelper.ts:32-59 | On a window with width and height exchanged, the leftward drag is the upward drag with x and y exchanged. |
| GestureHelper.SwipeOnElement | src/utils/GestureHelper.ts:77-103 | Location, then size, then one 500 ms drag: when both queries succeed, the first two commands are exactly the location and size queries. The ends are symmetric about the element's centre and `2 * 0.4 * min(width, height)` apart along the chosen axis, with the other coordinate unchanged. A failed query aborts. |
| GestureHelper.SwipeOnElementStaysInside | src/utils/GestureHelper.ts:77-103 | For an element of non-negative size, both ends of the drag lie inside the element. |
| GestureHelper.LongPress | src/utils/GestureHelper.ts:110-121 | Location, size, then press at the centre, wait `duration` (1000 by default), release. A failed query aborts. |
| GestureHelper.TapOnCoordinates | src/utils/GestureHelper.ts:128-132 | One `touchPerform` holding a single tap at (x, y). |
| GestureHelper.DoubleTap | src/utils/GestureHelper.ts:138-142 | Click, 100 ms pause, click. A refused first click stops it. It stops at the first refused command, and fails if and only if a click was refused. |
| GestureHelper.Scrolling | src/utils/GestureHelper.ts:149-155 | Specification of the loop: probe, then stop if the element is displayed or the budget is spent, else swipe up and repeat. It never swipes more than the remaining budget. |
| GestureHelper.ScrollToElement | src/utils/GestureHelper.ts:149-155 | The loop with counter `scrolls` issues exactly what `Scrolling` issues and ends the same way, with at most `maxScrolls` swipes. |
| GestureHelper.ScrollAlreadyDisplayed | src/utils/GestureHelper.ts:149-155 | An element displayed at the first probe costs one probe and no swipe. |
| GestureHelper.ScrollNeverDisplayed | src/utils/GestureHelper.ts:149-155 | An element never displayed, with every swipe succeeding, gives exactly `maxScrolls` swipes, `maxScrolls + 1` probes and a normal return. |
| GestureHelper.ScrollEndsWithProbe | src/utils/GestureHelper.ts:149-155 | A normal return always ends with a visibility probe. |
| GestureHelper.ScrollStopsAtDisplayed | src/utils/GestureHelper.ts:149-155 | A normal return with budget to spare means the last probe reported the element displayed: the loop stops at the first positive probe. |
| GestureHelper.ScrollProbesNegativeBeforeLast | src/utils/GestureHelper.ts:149-155 | Every probe before the last command answered "not displayed": the loop never goes past a positive probe. |
| BaseScreen.WaitForDisplayed | src/screenobjects/BaseScreen.ts:11-13 | A single wait with the given timeout (10000 by default). It succeeds exactly when the driver accepts the wait. |
| BaseScreen.Tap | src/screenobjects/BaseScreen.ts:28-31 | Wait 10000, then click. The click is issued if and only if the wait succeeds, and then the outcome is the driver's answer to the click. It stops at the first refused command and fails exactly when one was refused. |
| BaseScreen.TypeText | src/screenobjects/BaseScreen.ts:38-41 | Wait 10000, then set the value to exactly `text`, with no clear. A value is set if and only if the wait succeeds, and then the outcome is the driver's answer to it. It stops at the first refused command and fails exactly when one was refused. |
| BaseScreen.GetText | src/screenobjects/BaseScreen.ts:48-51 | Wait, then read. A failed wait is returned with no read. Otherwise the result is the driver's text, unchanged. It stops at the first refused command. |
| BaseScreen.IsDisplayed | src/screenobjects/BaseScreen.ts:58-64 | Never fails. The answer is the driver's flag, or false when the driver errs. |
| BaseScreen.HideKeyboard | src/screenobjects/BaseScreen.ts:77-85 | Never fails, and none of its commands counts as refused. It always asks whether the keyboard is shown, and issues a hide if and only if the answer is "shown". |
| BaseScreen.Swipe | src/screenobjects/BaseScreen.ts:94-101 | One drag between the two points held exactly 500 ms. The outcome is the driver's answer. |
| BaseScreen.SwipeUp | src/screenobjects/BaseScreen.ts:106-114 | A window query, then a drag on the centre line from 80% to 20% of the height. |
| BaseScreen.SwipeDown | src/screenobjects/BaseScreen.ts:119-127 | A window query, then a drag from 20% to 80% of the height. |
| BaseScreen.SwipeDownReversesUp | src/screenobjects/BaseScreen.ts:106-127 | The base downward drag is the base upward drag reversed. |
| BaseScreen.SwipeIsGestureSwipe | src/screenobjects/BaseScreen.ts:94-101 | The base swipe is the gesture helper's swipe at its default duration. |
| BaseScreen.SwipeUpIsGestureSwipeUp | src/screenobjects/BaseScreen.ts:106-114 | The base upward swipe is the gesture helper's with fraction 0.4. |
| BaseScreen.SwipeDownIsGestureSwipeDown | src/screenobjects/BaseScreen.ts:119-127 | The base downward swipe is the gesture helper's with fraction 0.4. |
| AndroidScreen.GetElementByUiAutomator | src/screenobjects/AndroidScreen.ts:13-15 | One lookup. The selector reads as UiAutomator with exactly the given expression. |
| AndroidScreen.GetElementByResourceId | src/screenobjects/AndroidScreen.ts:22-24 | The selector is UiAutomator and its expression parses back as a `resourceId` call on exactly the given value. |
| AndroidScreen.GetElementByText | src/screenobjects/AndroidScreen.ts:31-33 | The selector is UiAutomator and parses back as a `text` call on exactly the given value. |
| AndroidScreen.GetElementByContentDesc | src/screenobjects/AndroidScreen.ts:40-42 | The selector is UiAutomator and parses back as a `description` call on exactly the given value. |
| AndroidScreen.UiSelectorQuery | src/screenobjects/AndroidScreen.ts:22-42 | For every attribute and every value, whatever characters it holds (nothing is escaped), the built selector reads back as that attribute and that value. |
| AndroidScreen.PressHome | src/screenobjects/AndroidScreen.ts:54-56 | One key press with code 3. |
| IOSScreen.GetElementByPredicate | src/screenobjects/IOSScreen.ts:13-15 | The selector reads as a predicate string with exactly the given condition. |
| IOSScreen.GetElementByClassChain | src/screenobjects/IOSScreen.ts:22-24 | The selector reads as a class chain with exactly the given chain. |
| IOSScreen.GetElementByAccessibilityId | src/screenobjects/IOSScreen.ts:31-33 | The selector reads as an accessibility id with exactly the given id. |
| IOSScreen.GetElementByLabel | src/screenobjects/IOSScreen.ts:40-42 | The selector is a predicate string whose condition `label == "…"` compares against exactly the given label. |
| IOSScreen.IOSSelectorPrefixes | src/screenobjects/IOSScreen.ts:13-42 | Every iOS builder's selector starts with its strategy prefix, and the label builder's with the predicate prefix. |
| LoginScreen.AndroidSelectors | src/screenobjects/LoginScreen.ts:27-34 | The Android table equals the iOS table, and its four selectors are the accessibility ids `input-email`, `input-password`, `button-LOGIN` and `generic-error-message`. |
| LoginScreen.IOSSelectors | src/screenobjects/LoginScreen.ts:39-46 | The four iOS selectors are those same accessibility ids. |
| LoginScreen.Screen | src/screenobjects/LoginScreen.ts:20-22 | The platform screen is the Android one exactly when the session flag says Android, and the iOS one otherwise. `CurrentSelectors` reads the same flag. |
| LoginScreen.CurrentSelectors | src/screenobjects/LoginScreen.ts:51-53 | The table picked by the platform flag equals both tables, so the platform never changes a login selector, and every selector is an accessibility id. |
| LoginScreen.UsernameInput | src/screenobjects/LoginScreen.ts:58-60 | One lookup of the same selector on both platforms, the accessibility id `input-email`. |
| LoginScreen.PasswordInput | src/screenobjects/LoginScreen.ts:65-67 | One lookup of the accessibility id `input-password`, the same on both platforms. |
| LoginScreen.LoginButton | src/screenobjects/LoginScreen.ts:72-74 | One lookup of the accessibility id `button-LOGIN`, the same on both platforms. |
| LoginScreen.ErrorMessage | src/screenobjects/LoginScreen.ts:79-81 | One lookup of the accessibility id `generic-error-message`, the same on both platforms. |
| LoginScreen.EnterUsername | src/screenobjects/LoginScreen.ts:87-89 | Look up the username field, wait, then set exactly the username. The value is set if and only if the wait succeeds. It stops at the first refused command and fails exactly when one was refused. |
| LoginScreen.EnterPassword | src/screenobjects/LoginScreen.ts:95-97 | The same for the password field. |
| LoginScreen.TapLoginButton | src/screenobjects/LoginScreen.ts:102-104 | Look up the button, wait, click. The click is issued if and only if the wait succeeds. It stops at the first refused command and fails exactly when one was refused. |
| LoginScreen.Login | src/screenobjects/LoginScreen.ts:111-116 | Username, password, keyboard check (plus a hide when shown), then button, in that order. It stops at the first refused command and fails exactly when one was refused, so a failure aborts the later steps. The keyboard step is never where it fails. The keyboard is hidden if and only if the driver answered "shown" to the one keyboard query, on the history the field steps left. |
| LoginScreen.LoginComposes | src/screenobjects/LoginScreen.ts:111-116 | What each of the four steps promises composes into what the login promises. |
| LoginScreen.LoginReachesButton | src/screenobjects/LoginScreen.ts:111-116 | Once username and password succeed, the login button is always looked up, whatever the keyboard step meets. |
| LoginScreen.LoginAbortsAfterUsername | src/screenobjects/LoginScreen.ts:111-116 | A failed username step is the whole login: nothing after it is issued. |
| LoginScreen.GetErrorMessageText | src/screenobjects/LoginScreen.ts:122-124 | Look up the error message, wait, read. Once the wait succeeds, the result is the driver's text unchanged. A refused wait is the failure, with no read. It stops at the first refused command. |
| LoginScreen.IsErrorMessageDisplayed | src/screenobjects/LoginScreen.ts:130-132 | Never fails. It probes only the error message, and false stands for any driver error. |
| LoginScreen.WaitForScreenLoad | src/screenobjects/LoginScreen.ts:137-141 | Username, password and button are each looked up and awaited with 15000, in that order. It stops at the first refused wait and fails exactly when one was refused. |
| HomeScreen.AndroidSelectors | src/screenobjects/HomeScreen.ts:27-34 | Each Android selector reads back as the match the source writes: welcome message as the `TextView` whose `resource-id` is `welcome-message`, logout as the `Button` whose `text` is `Logout`, profile and settings as the `Button`s whose `resource-id` is `profile-button` and `settings-button`. All four start with `//android.widget.`, read as XPath, and differ. |
| HomeScreen.WidgetQueryReadsBack | src/screenobjects/HomeScreen.ts:29-32 | An XPath of the form `//android.widget.W[@A="V"]` reads back as the widget W, the attribute A and the value V, whenever those three contain no delimiter that would end them early. |
| HomeScreen.IOSSelectors | src/screenobjects/HomeScreen.ts:39-46 | The iOS selectors are the accessibility ids `welcome-message`, `logout-button`, `profile-button` and `settings-button`, four different ones. |
| HomeScreen.Screen | src/screenobjects/HomeScreen.ts:20-22 | The platform screen is the Android one exactly when the session flag says Android, and the iOS one otherwise. `CurrentSelectors` reads the same flag. |
| HomeScreen.CurrentSelectors | src/screenobjects/HomeScreen.ts:51-53 | The current table is the Android one if and only if the session is Android, and the iOS one if and only if it is iOS. Each of the four selectors is XPath if and only if the session is Android, and the four keys stay different. |
| HomeScreen.WelcomeMessage | src/screenobjects/HomeScreen.ts:58-60 | One lookup of the current table's welcome selector, XPath exactly on Android. |
| HomeScreen.LogoutButton | src/screenobjects/HomeScreen.ts:65-67 | One lookup of the current logout selector, XPath exactly on Android. |
| HomeScreen.ProfileButton | src/screenobjects/HomeScreen.ts:72-74 | One lookup of the current profile selector, XPath exactly on Android. |
| HomeScreen.SettingsButton | src/screenobjects/HomeScreen.ts:79-81 | One lookup of the current settings selector, XPath exactly on Android. |
| HomeScreen.GetWelcomeMessageText | src/screenobjects/HomeScreen.ts:87-89 | Look up the welcome message, wait, read. Once the wait succeeds, the result is the driver's text unchanged. A refused wait is the failure, with no read. It stops at the first refused command. |
| HomeScreen.TapLogoutButton | src/screenobjects/HomeScreen.ts:94-96 | Look up, wait and click the logout key's element. The click is issued if and only if the wait succeeds. It stops at the first refused command and fails exactly when one was refused. |
| HomeScreen.TapProfileButton | src/screenobjects/HomeScreen.ts:101-103 | The same for the profile key's element. |
| HomeScreen.TapSettingsButton | src/screenobjects/HomeScreen.ts:108-110 | The same for the settings key's element. |
| HomeScreen.TapsClickOwnButton | src/screenobjects/HomeScreen.ts:94-110 | No tap ever clicks either of the other two buttons. |
| HomeScreen.IsDisplayed | src/screenobjects/HomeScreen.ts:116-118 | Never fails. It probes only the welcome message, and false stands for any driver error. |
| HomeScreen.WaitForScreenLoad | src/screenobjects/HomeScreen.ts:123-125 | A single lookup and wait, on the welcome message, with 15000. It fails exactly when the wait is refused. |

## Left out

- Configuration, test data and type declarations have no behaviour and are not part of this model:
  - `wdio.conf.ts`, `wdio.android.conf.ts`, `wdio.ios.conf.ts`;
  - `src/config/app.config.ts`;
  - `src/data/testData.ts`;
  - `src/types/wdio.d.ts`.
- `src/tests/demo-login.spec.ts` is not part of this model. It is a test-runner script against a live device.
- `src/utils/WaitHelper.ts` is not part of this model. Its methods are one-line forwards to the library.
- `src/utils/DeviceHelper.ts` is not part of this model. Its methods forward to the driver, with two exceptions:
  - its `hideKeyboard` repeats the query, conditional hide and swallowed error of `BaseScreen.HideKeyboard`;
  - `getAppIdentifier` asks the driver for the current package on Android and returns the fixed string `'iOS Bundle ID'` on iOS.
- The pure driver-forwarding methods are not modelled. They are I/O with nothing to state beyond the single call:
  - `AndroidScreen`: back, notifications, current activity and package, start activity;
  - `IOSScreen`: shake, lock, unlock, `isDeviceLocked`, touch id, clipboard.
- `BaseScreen` `waitForClickable`, `scrollToElement` (`scrollIntoView`), `takeScreenshot` and `wait` are not modelled. Each is a single forwarded library call, and none of them is used by the screen objects modelled here.
- `console.log` in `hideKeyboard` is not modelled. Logging is output only.
- Timing is not modelled:
  - waits and pauses are recorded commands, not elapsed time;
  - the polling inside `waitForDisplayed` belongs to the library, and is represented only by the driver's answer to the wait.
- Coordinates are exact reals, not IEEE doubles.
- What the device does with a touch sequence is not modelled.
- The platform flag is a fixed field of the driver, constant for the session.
- `$(selector)` never fails: WebdriverIO returns an element object, and a missing element makes the first command on it fail. That failure is part of the driver's answer to that command.
- Neither platform screen overrides a base-screen member, so both branches run the same base-screen code.
- GestureHelper.ScrollToElement: an error from `isDisplayed` or from a swipe inside the loop propagates and ends the loop. `scrollToElement` has no try/catch, and the driver's error behaviour of `element.isDisplayed()` is outside the model.
- GestureHelper.ScrollToElement: `maxScrolls` is a `nat`. A JavaScript number may also be negative, which the loop treats like 0, or fractional: 2.5 gives 3 swipes. Neither case is modelled. Durations, pauses and timeouts are plain `int`s.
- BaseScreen.HideKeyboard: the driver's answer to the hide command is not consulted. The source swallows it either way, so the outcome is the same.
