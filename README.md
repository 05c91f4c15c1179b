# Signup PIN entry and submit checks

A Dafny model of the signup screen of a small banking app (`signup.js`).
The screen holds three text fields (full name, email, phone number), two rows
of five PIN boxes (the PIN and its confirmation), a terms
checkbox and a loading flag. It covers three behaviours:

- **Editing a PIN box.** The selected row is copied, one box is overwritten
  with the delivered text, and the copy replaces the row. A non-empty entry in
  boxes 0 to 3 moves focus to the next box.
- **Backspace.** Backspace on an empty box other than the first moves focus
  one box back. It never changes a box.
- **Submitting.** The checks run in a fixed order: the three text fields are
  non-empty, the joined PIN has length 5, the joined PIN equals the joined
  confirmation, and the terms are accepted. The first failing check decides
  the error. Only when all pass does the screen start loading.

Everything is in `signup.dfy`, module `Signup`:

- `SignupScreen` is a class with the screen's state and one method per event
  handler. Each method states the whole new state.
- `NextFocusOnChange` and `NextFocusOnKey` are pure functions. They give the
  focus after each event and keep it inside the row.
- `Join` glues the boxes of a row together, like `join("")`. The lemmas
  `JoinLength` and `JoinEqualIff` prove two facts about it:
  - on boxes of at most one UTF-16 unit, the joined PIN has length 5 exactly when every box
    is filled;
  - when one row is full, the joined strings are equal exactly when the rows
    agree box by box.
- `Validate` is the ordered check chain. `ValidateOnCells` restates its
  verdict box by box.
- `FillPinInOrder` and `RetypeAfterBackspace` are two client scenarios. They
  are verified against the method contracts alone.

Modelling choices:

- A PIN box stores exactly the text the change event delivers. The code has
  no digit or last-character filter, and neither does the model.
- Lengths are JavaScript lengths. `Utf16Length` counts UTF-16 code units, so
  a character outside the Basic Multilingual Plane counts 2. Both the field
  limit `maxLength={1}` and the `length !== 5` test count this way. The field
  limit therefore appears as the precondition `Utf16Length(value) <= 1` on
  `HandlePinChange`: every box is empty or holds one BMP character.
- The code focuses no box until the user taps one. The model starts each
  row's focus index at 0 and moves it only where a handler calls `focus()`.
- The code checks only the joined PIN's length, then string equality.
  `ValidateOnCells` proves that on well-formed rows this is the same as "both
  rows fully filled and identical".
- The advance test uses the literal `4`, as the code does.
  `NextFocusOnChange` proves that this literal means "not the last box" of a
  five-box row.

## Model

| member | source | states |
|---|---|---|
| Signup.SignupScreen.constructor | signup.js:18-24 | Fresh screen: empty text fields, both rows five empty boxes, focus 0, not loading, terms not accepted |
| Signup.SignupScreen.HandlePinChange | signup.js:29-46 | Box `index` of the selected row becomes `value` and every other box of both rows is unchanged. Both rows keep five boxes of at most one UTF-16 unit. Only the selected row's focus moves, as NextFocusOnChange gives. No flag or text field changes |
| Signup.NextFocusOnChange | signup.js:39-45 | Focus stays inside the row. A non-empty entry before the last box moves focus to the next box. An empty entry, or any entry in the last box, leaves focus where it was: no advance past the end and no wraparound |
| Signup.SignupScreen.HandleKeyPress | signup.js:48-58 | No box of either row changes. Only the selected row's focus may move, as NextFocusOnKey gives |
| Signup.NextFocusOnKey | signup.js:48-57 | Backspace on an empty box with index above 0 moves focus to index-1. Any other key, index 0, or a filled box leaves focus unchanged. Focus stays inside the row |
| Signup.Utf16Length | signup.js:69 | JavaScript's `length` of a string: never less than its number of characters and never more than twice that |
| Signup.Utf16LengthBmp | signup.js:69 | The JavaScript length equals the character count exactly when every character is in the Basic Multilingual Plane |
| Signup.Join | signup.js:66-67 | `join("")` of a row: the joined text is empty exactly when every box is empty |
| Signup.JoinLength | signup.js:66-72 | On boxes of at most one UTF-16 unit, the joined PIN's JavaScript length is never more than the number of boxes. It equals the number of boxes exactly when every box is filled |
| Signup.JoinEqualIff | signup.js:74-77 | When one row is full and both have boxes of at most one UTF-16 unit and equal length, the joined strings are equal exactly when the rows are equal box by box |
| Signup.Validate | signup.js:61-82 | The first failing check, in source order, decides the verdict. Accepted exactly when all three fields are non-empty, the joined PIN has JavaScript length 5, equals the joined confirmation and the terms are accepted; then the joined confirmation has length 5 too. ValidateOnCells states each verdict box by box |
| Signup.Verdict.Message | signup.js:62-80 | Each failed check has a non-empty alert text, the one the handler shows |
| Signup.MessagesDistinct | signup.js:62-80 | Different failed checks show different alert texts |
| Signup.ValidateOnCells | signup.js:60-82 | Each verdict holds exactly when the earlier checks pass and its own fails (fields, then PIN complete, then rows equal, then terms). Accepted exactly when all text fields are non-empty, both rows are fully filled and identical, and the terms are accepted |
| Signup.ClearedBoxBlocksSignup | signup.js:66-72 | Emptying any box of either row makes acceptance impossible, whatever the other inputs are |
| Signup.SignupScreen.HandleSignup | signup.js:60-84 | The returned verdict is the ordered check chain on the current state. Loading starts only on Accepted, and then the joined PIN has JavaScript length 5 and equals the joined confirmation. A failing check changes nothing |
| Signup.SignupScreen.SetFullName | signup.js:163 | Typing in the name field replaces it |
| Signup.SignupScreen.SetEmail | signup.js:177 | Typing in the email field replaces it |
| Signup.SignupScreen.SetPhoneNumber | signup.js:192 | Typing in the phone field replaces it |
| Signup.SignupScreen.ToggleTerms | signup.js:217 | Tapping the checkbox flips the terms flag |

## Left out

- The login screen (`Login.js`). Its only logic is a two-field non-empty check in front of a simulated delay.
- The two-second timer after acceptance. It resets `isLoading`, shows the success alert and navigates to the login screen (signup.js:85-90). These are timer, alert and navigation side effects. The model stops at the verdict and `isLoading` becoming true.
- Alert dialogs are not shown. A failed check yields a `Verdict`, and `Verdict.Message` gives the alert text.
- Real keyboard focus through `TextInput` references. Each row has a focus index instead. The model does not capture that only one field on the screen can hold focus at a time.
- Platform field limits (`maxLength`, numeric keyboard, secure entry). `maxLength={1}` is the precondition `Utf16Length(value) <= 1`, so the model never holds a box with a character outside the Basic Multilingual Plane. No digit filtering is modelled, because the code does none.
- The button being disabled while loading (signup.js:233). `HandleSignup` does not require `!isLoading`. It only promises that loading is never switched off.
- React's render-time state capture. Three handlers read state as it was at the last render: `handleKeyPress` reads the row (signup.js:50), `handlePinChange` copies the row (signup.js:30), and the checkbox handler negates the flag (signup.js:217). The model reads the current state, so it assumes each event sees the state left by the previous one.
- Icons, the checkbox drawing, the view tree and the style sheet. These are presentation only.
