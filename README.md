# Upload form guard — a Dafny model

This project models `script.js`, the client-side guard of a single-file upload
form that accepts only `.xlsx` spreadsheets of at most 50 MiB. It has two parts:

- `validation.dfy`, module `Validation`. This is the pure decision of
  `validateCurrentFile`. The selected file is a record `FileInfo(name, mimeType, size)`,
  wrapped in an `Option` because the input may be empty. Three rules are checked in
  order and the first that fails wins: a file is present; it is an xlsx file
  (declared type `XLSX_MIME`, or a lower-cased name ending in `.xlsx`); its size is
  at most `MAX_BYTES = 50 * 1024 * 1024`. `Validate` returns `Ok | NoFile | BadFormat | TooLarge`,
  and `IsValid` is the order-free reference definition it is proved against.
  `ErrorMessage` gives the message each failing rule shows.
- `form_guard.dfy`, module `FormGuard`. Class `Guard` has fields for the page state
  the handlers write:
  - the dropzone's `is-invalid` class (`invalid`) and `is-dragover` class (`dragActive`);
  - the filename label's text (`labelText`), its `role="alert"` (`roleAlert`) and its `aria-live` value (`live`);
  - the input's first file (`inputFile`) and its custom validity message (`customValidity`);
  - the module-level `dragCounter`;
  - the submit button's `disabled` flag and text (`btnDisabled`, `btnText`).

  There is one method per handler. The two timers are methods the environment calls
  when they would fire. `RestoreTimeout` takes the page's visibility as a parameter,
  and takes the button text that `Submit` handed back. `ResetTick` is the next-tick
  callback of the reset handler.

`Guard.Valid()` is the invariant every handler keeps:
- the drag counter is never negative;
- the drag style is on exactly while the counter is positive;
- the error state is consistent across dropzone, label, ARIA attributes and input;
- a file that stays in the input is a valid one, labelled with its name and size.

Because of the last point, `Submit` is prevented exactly when the input is empty.

`formatBytes` is kept abstract. It is the `format: nat -> string` constant of the guard,
and a parameter of `ErrorMessage` and `FileLabel`. Lower-casing is ASCII-only (`A`–`Z`).
This is an idealisation of JavaScript's `toLowerCase`, but the suffix `.xlsx` is
made only of ASCII characters that no other character lower-cases to.

Overlapping submits do not bring back the original text. Each submit captures the
button text at that moment as `original` (script.js:125). A second submit before the
first timer fires therefore captures `Enviando…`. `DoubleSubmitRace` proves that once
both timers have fired on a visible page, the button is enabled but still reads
`Enviando…`. A click on the disabled button does not fire a second `submit`, and
neither does implicit submission while the default button is disabled. The race
needs another submitter or a scripted submit.

Browsers fire `dragover` repeatedly while a drag hovers over the dropzone. Each firing
raises the counter (script.js:98-104), and each `dragleave` or `drop` lowers it by one
only (script.js:106-112). So the counter can stay positive after the drag ends, and
the `is-dragover` style then stays on. `HoverThenLeave` proves this for one `dragenter`,
one `dragover` and one `dragleave`.

## Model

| member | source | states |
|---|---|---|
| `Validation.Validate` | script.js:44-71 | result is `Ok` exactly when `IsValid` (file present, declared type `XLSX_MIME` or lower-cased name ending in `.xlsx`, size at most `MAX_BYTES`); `NoFile` exactly when nothing is selected; `BadFormat` exactly when a file fails the format rule, whatever its size; `TooLarge` exactly when it passes the format rule and exceeds the cap |
| `Validation.ErrorMessage` | script.js:47-66 | every failing rule yields a non-empty message; the too-large message contains the formatted actual size and the formatted cap at fixed positions |
| `Validation.ToLower` | script.js:52 | lower-casing keeps the length and maps each character through ASCII lower-casing |
| `Validation.AnyCaseExtension` | script.js:52 | any name ending in an extension that lower-cases to `.xlsx` passes the extension test |
| `Validation.HasXlsxExtension` | script.js:52 | the lower-cased name ends with `.xlsx` exactly when the name has at least five characters and its last five lower-case to `.xlsx` |
| `Validation.IsXlsx` | script.js:52 | the format rule holds exactly when the declared type is `XLSX_MIME`, or each of the name's last five characters lower-cases to the matching character of `.xlsx` |
| `Validation.IsValid` | script.js:44-71 | a selection is acceptable exactly when a file is present, its size is at most 52,428,800 bytes, and its declared type is `XLSX_MIME` or its name has the `.xlsx` extension in any case |
| `Validation.UpperCaseNamePasses` | script.js:52-58 | `report.XLSX` with no declared type and a size within the cap is accepted |
| `Validation.SizeBoundary` | script.js:7 | for an xlsx file, the cap is 52,428,800 bytes: that size passes and one byte more is `TooLarge` |
| `Validation.RuleOrder` | script.js:47-66 | absence fails first, a wrong format is reported even for an oversized file, and an oversized file never passes |
| `Validation.MessageIdentifiesRule` | script.js:48-64 | two different failing rules show different messages |
| `FormGuard.FileLabel` | script.js:35-37 | the label of a selected file is its name, then ` • `, then its formatted size |
| `FormGuard.Guard.constructor` | script.js:96 | the page starts with no file, no error, drag counter 0, drag style off, button enabled with its given text; the invariant holds |
| `FormGuard.Guard.SetError` | script.js:20-26 | sets the invalid class, label text, alert role, assertive live region and validity message; input, drag state and button unchanged |
| `FormGuard.Guard.ClearError` | script.js:28-33 | clears the invalid class, the alert role and the validity message, sets polite; label text, input, drag state and button unchanged |
| `FormGuard.Guard.UpdateFileUI` | script.js:35-41 | label is the file label of the given file, or the placeholder when there is none; nothing else changes |
| `FormGuard.Guard.ValidateCurrentFile` | script.js:44-71 | returns `IsValid` of the current file; on success the error state is cleared and the label kept; on failure with `showErrors` the first failing rule's message is on label and input; on failure without it the error state is unchanged |
| `FormGuard.Guard.Change` | script.js:85-93 | a valid selection stays in the input, is labelled `name • size`, and has no error; an invalid one is removed from the input and its message is on label and input; the invariant is kept |
| `FormGuard.Guard.DragEnter` | script.js:98-104 | counter goes up by one and the drag style is on; nothing else changes |
| `FormGuard.Guard.DragOver` | script.js:98-104 | the same listener as `DragEnter`, with the same effect |
| `FormGuard.Guard.DragLeave` | script.js:106-112 | counter goes down by one, floored at 0; the drag style goes off when it reaches 0 and is otherwise kept; the counter is never negative |
| `FormGuard.Guard.Drop` | script.js:106-112 | the same listener as `DragLeave`, with the same effect |
| `FormGuard.Guard.Submit` | script.js:115-127 | prevented exactly when the current file is invalid (under the invariant: when none is selected); prevented leaves the button unchanged and shows the error; otherwise the button is disabled, reads `Enviando…`, and the previous text is returned as `original` |
| `FormGuard.Guard.RestoreTimeout` | script.js:129-134 | on a visible page the button is enabled and reads `original`; otherwise nothing changes |
| `FormGuard.Guard.ResetTick` | script.js:76-82 | input emptied, error state cleared, label shows `Nenhum arquivo selecionado`; drag state and button unchanged |
| `FormGuard.SubmitThenRestore` | script.js:115-134 | selecting a valid file, submitting, and the timer firing on a visible page leave the button enabled with exactly its original text |
| `FormGuard.SubmitWithoutFile` | script.js:47-49 | submitting with nothing selected is prevented, shows the "select a file" message and leaves the button enabled |
| `FormGuard.InvalidChangeThenSubmit` | script.js:89-92 | after choosing an invalid file the input is empty, and a following submit is prevented |
| `FormGuard.DoubleSubmitRace` | script.js:124-134 | two submits before either timer fires leave the button enabled but still reading `Enviando…` once both timers have fired |
| `FormGuard.HoverThenLeave` | script.js:98-112 | after `dragenter`, one `dragover` and one `dragleave` the counter is 1 and the drag style is still on |

## Left out

- `formatBytes` (script.js:12-18) is not modelled. It uses floating-point `Math.log`, `Math.pow` and `toFixed`. It is an abstract `nat -> string` parameter, so no property of the formatted sizes is claimed (for instance that the cap prints as `50.0 MB`).
- Validation.ToLower: models only ASCII lower-casing, not the full Unicode `toLowerCase`. This is weaker only for names outside ASCII, and it does not change the `.xlsx` suffix test.
- DOM lookups (script.js:1-5), `e.preventDefault()` on drag events, and `input.focus()` on a prevented submit are not modelled. They have no state the model tracks.
- The initialisation that removes `multiple` and sets `accept` (script.js:139-145) is pure attribute setup and is not modelled. The input holds at most one file (`Option<FileInfo>`), which is what that setup ensures.
- Timer scheduling, the event loop and `document.visibilityState` are not modelled. The timers are methods the environment calls, and visibility is a parameter.
- The browser's own native form reset, which runs before the reset tick, is not modelled. So is native constraint validation, which can block a submit when `customValidity` is non-empty. Both are browser behaviour outside the script.
- The upload itself and any server behaviour are not in the script.
- FormGuard.Guard.constructor: assumes the page loads with an empty input, no error and no drag style. The label and button texts are parameters, because they come from the page's markup, which is not part of this model.
