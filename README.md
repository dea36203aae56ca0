# Event and user admin console — page logic in Dafny

This project models the logic of five pages of a React console that manages users
and scheduled events through a GraphQL API:

- **Event form** (`EventFormPage`, built on `CsvImport`, `Text` and `Remote`). It creates
  one event, edits one loaded event, or bulk-imports events from an uploaded comma-separated
  file.
  - The parser works on the already-read text. It splits on `\n`, trims each line and drops
    blank lines. It discards the first line as a header, splits every other line on `,` and
    maps columns 0–4 by position. A missing column reads as `""`. There is no quoting.
  - Before a bulk import, the rows are checked in order. The first row whose name or date trims
    to nothing stops the submission, and the alert gives that row's 1-based number.
  - Submission has three branches: bulk create, update, create.
  - The two date rules (on load and on cancel) and the cancel/reset rules are modelled as the
    code writes them.
- **Events list** (`EventsListPage`) and **users list** (`UsersListPage`).
  - Both have page arithmetic (`Paging`) and the Prev/Next guards.
  - Both have a debouncer. It is a discrete state machine: the timer is either disarmed or
    armed with the inputs its callback captured. An edit re-arms it. `Fire` is the quiet
    period running out.
  - The events list debounces five filters, and a page change re-arms its timer.
  - The users list debounces the name only. Its role applies at once.
- **Delete confirmation** (`DeleteConfirmation`). One class with a constructor per page.
  - The events page leaves the dialog open when a deletion fails. The users page closes it.
  - The mutation, the alert and the refetch are returned as an effect record.
- **Change password** (`ChangePasswordPage`).
  - The ordered checks before the mutation, and what success and failure do.
  - Cancel, and the three show/hide flags.
- **User form** (`UserFormPage`).
  - The initial draft, the prefill merge that keeps the password, and the update and create
    payloads. An update never carries a password.
  - The create message, which names the user exactly when the answer has a truthy id, and the
    cancel rules.

The page state lives in classes whose methods update fields, as the React state hooks do.
Submit handlers change no page state: they are methods that return what the page does, as an
effect record.

Remote calls are parameters. A call's outcome is `Ok(payload)` or `Err(messages)`. The
messages are the server's ordered GraphQL error messages; the list is empty for any other
failure. Every page shows the first message, else its own fallback (`Remote.ErrorAlert`).

The JavaScript built-ins the parser relies on are modelled in `Text`, each with a reference
partner and a proof connecting the two:

- `trim` uses the ECMAScript white-space and line-terminator set.
- `split` on one character always yields at least one piece. `Join` is its inverse.
- `filter` of empty strings is `DropEmpty`.
- A number rendered in a template literal is `Decimal`, read back by `DigitsValue`.

## Model

| member | source | states |
|---|---|---|
| Text.TrimStart | src/pages/EventForm.tsx:97 | The leading part of `trim`: the result is a suffix of the input. |
| Text.TrimStartShape | src/pages/EventForm.tsx:97 | What `TrimStart` cuts off is all whitespace, and what it keeps does not start with whitespace. |
| Text.TrimStartCut | src/pages/EventForm.tsx:97 | Every character before the kept suffix is whitespace, and the kept suffix does not start with whitespace, stated by position in the line. |
| Text.TrimEnd | src/pages/EventForm.tsx:97 | The trailing part of `trim`: the result is a prefix of the input. |
| Text.TrimEndShape | src/pages/EventForm.tsx:97 | What `TrimEnd` cuts off is all whitespace, and what it keeps does not end with whitespace. |
| Text.Trim | src/pages/EventForm.tsx:97 | `line.trim()`, never longer than its input (its meaning is in the next lemmas). |
| Text.TrimIsTrimmed | src/pages/EventForm.tsx:97 | A trimmed line has no whitespace at either end. |
| Text.TrimKeepsOut | src/pages/EventForm.tsx:97 | Trimming adds no character: what the line lacks, the trimmed line lacks. |
| Text.TrimEmptyIff | src/pages/EventForm.tsx:97 | `trim` gives `""` exactly for all-whitespace strings (both directions). |
| Text.BlankIffTrimEmpty | src/pages/EventForm.tsx:122 | `!s.trim()` holds exactly for blank strings (both directions). |
| Text.BlankIffAllWhitespace | src/pages/EventForm.tsx:122 | The recursive blank test is equivalent to "every character is whitespace". |
| Text.TrimOfTrimmed | src/pages/EventForm.tsx:97 | A line with no whitespace at either end is left unchanged by `trim`, so `trim` is idempotent. |
| Text.FirstIndex | src/pages/EventForm.tsx:76 | The index of the first occurrence of the separator: it holds the separator and nothing before it does. |
| Text.Split | src/pages/EventForm.tsx:97 | `split` on one character: at least one piece (`"".split` is `[""]`), and no piece holds the separator. |
| Text.SplitFirstPiece | src/pages/EventForm.tsx:76 | `s.split(sep)[0]` is a prefix of `s`: the text right before the first separator when there is one, otherwise all of `s`. |
| Text.JoinSplit | src/pages/EventForm.tsx:97 | Joining the pieces of a split gives back the text. |
| Text.SplitJoin | src/pages/EventForm.tsx:99 | Splitting a join of separator-free pieces gives back exactly those pieces. |
| Text.DropEmpty | src/pages/EventForm.tsx:97 | `.filter((r) => r)`: every kept string is non-empty and taken from the input, and the result is no longer than the input. |
| Text.DropEmptyAppend | src/pages/EventForm.tsx:97 | Filtering distributes over concatenation, so order is kept and only empty strings go. |
| Text.DropEmptyKeepsNonEmpty | src/pages/EventForm.tsx:97 | A list without empty strings is left unchanged by the filter. |
| Text.DigitChar | src/pages/EventForm.tsx:123 | The digit character of a value 0–9 denotes that value. |
| Text.Decimal | src/pages/EventForm.tsx:123 | A rendered number is non-empty, all decimal digits, and has no leading zero. |
| Text.DecimalRoundTrip | src/pages/EventForm.tsx:123 | Reading the rendered digits back gives the number. |
| Remote.ErrorAlert | src/pages/EventForm.tsx:141-145 | A failure's alert is the first server message when there is one, otherwise the fallback; it is always one of the two. |
| Remote.IdTruthy | src/pages/Events.tsx:174 | An id is falsy exactly when it is `null` or `0` (the same test guards the users page's confirm, Users.tsx:149). |
| Remote.OrEmpty | src/pages/EventForm.tsx:81-83 | `value \|\| ""` on a nullable string: absent reads as `""`. |
| CsvImport.Column | src/pages/EventForm.tsx:101-105 | `cols[k] \|\| ""`: the k-th column when the row has one, otherwise `""`; always a column of the row or `""`. |
| CsvImport.RowToRecord | src/pages/EventForm.tsx:98-106 | No field of a record holds a comma: every field is one comma-separated column or `""`. |
| CsvImport.RowFirstColumn | src/pages/EventForm.tsx:99-101 | The name is a prefix of the line; a line without a comma becomes a record holding the whole line as its name and `""` everywhere else. |
| CsvImport.TrimAll | src/pages/EventForm.tsx:97 | `.map((r) => r.trim())`: the same number of lines, each trimmed in place. |
| CsvImport.TrimmedPieces | src/pages/EventForm.tsx:97 | After trimming, every line of the text has no whitespace at either end and no line break. |
| CsvImport.Lines | src/pages/EventForm.tsx:97 | The surviving lines of an upload are non-empty, trimmed, and free of line breaks. |
| CsvImport.ParseCsv | src/pages/EventForm.tsx:97-107 | Exactly one record per surviving line after the first, in order, each being that line's columns. Zero or one surviving line yields no record. |
| CsvImport.RowColumns | src/pages/EventForm.tsx:99-106 | Columns 0–4 map to name, contact, venue, description and date. A missing column reads as `""` and columns past the fifth are ignored. Fields are not trimmed. |
| CsvImport.RecordRoundTrip | src/pages/EventForm.tsx:99-106 | A record without commas or line breaks, written as one comma-joined line, is read back unchanged. |
| CsvImport.SerializedLines | src/pages/EventForm.tsx:97-107 | The file lines written for a list of records: one per record, in order. |
| CsvImport.LinesOfCleanJoin | src/pages/EventForm.tsx:97 | Lines that are non-empty, trimmed and free of line breaks, once joined, come back out as exactly those lines. |
| CsvImport.ParseCsvRoundTrip | src/pages/EventForm.tsx:97-107 | Parsing a file made of any header line plus one line per importable record gives back exactly those records, in order. |
| CsvImport.LinesOfJoin | src/pages/EventForm.tsx:97 | The surviving lines of a text built from separator-free pieces are those pieces trimmed, with the blank ones dropped. |
| CsvImport.TrimAllAroundBlank | src/pages/EventForm.tsx:97 | A whitespace-only line trims to `""` wherever it sits in the file. |
| CsvImport.DropEmptyAroundEmpty | src/pages/EventForm.tsx:97 | An empty line is removed by the blank-line filter wherever it sits. |
| CsvImport.LinesAroundBlank | src/pages/EventForm.tsx:97 | The surviving lines of a file with a whitespace-only line inserted are those of the lines before it followed by those of the lines after it. |
| CsvImport.LinesOfAppend | src/pages/EventForm.tsx:97 | The surviving lines of two runs of lines written one after the other are those of the first run followed by those of the second. |
| CsvImport.EmptyFileHasNoLines | src/pages/EventForm.tsx:97 | An empty file has no surviving line: its single empty piece is dropped by the filter. |
| CsvImport.BlankLineIgnored | src/pages/EventForm.tsx:97-98 | Inserting a whitespace-only line anywhere in a file, before the header line included, leaves the parsed records unchanged, because blank lines are dropped before the header is. |
| CsvImport.SameLinesSameRecords | src/pages/EventForm.tsx:98-107 | The records depend on the text only through its surviving lines. |
| CsvImport.RowComplete | src/pages/EventForm.tsx:122 | A row passes the check only with a non-empty name and a non-empty date (its exact reading through `trim` is `EventFormPage.MissingFields`). |
| CsvImport.FirstIncompleteRow | src/pages/EventForm.tsx:120-126 | None exactly when every row has a non-blank name and date; otherwise the index of an incomplete row all of whose predecessors are complete. |
| CsvImport.MissingFieldsAlert | src/pages/EventForm.tsx:123 | The row alert is `Row ` + digits + `: "Name" and "Event Date" are required.`, and the digits read back as the row number. |
| EventFormPage.PrefillDate | src/pages/EventForm.tsx:72-77 | The date shown on load never holds a `T` and is a prefix of the loaded date. With a `T` it stops right before the first `T`; without one it is the first ten characters, or all of a shorter date. A missing date gives `""`. |
| EventFormPage.CancelDate | src/pages/EventForm.tsx:171 | The date restored by Cancel never holds a `T` and stops right before the first `T`. It is the whole date when there is no `T`, and `""` when the date is missing. |
| EventFormPage.PrefillDraft | src/pages/EventForm.tsx:79-85 | The draft shown after loading keeps the name, reads each null text column as `""` and any other as loaded, and holds a date with no `T`, at most ten characters long when the loaded date had no `T`. |
| EventFormPage.RestoredDraft | src/pages/EventForm.tsx:166-172 | The draft Cancel restores keeps the name, reads each null text column as `""` and any other as loaded, and holds a date with no `T`; a loaded date without `T` comes back whole. |
| EventFormPage.DateRulesAgreeIff | src/pages/EventForm.tsx:76 | The load rule and the cancel rule (line 171) agree exactly when the date is missing, holds a `T`, or has at most ten characters. |
| EventFormPage.RestoreMatchesPrefillIff | src/pages/EventForm.tsx:164-172 | Cancel in edit mode brings back the loaded name and description, and gives back the whole draft first shown exactly when the two date rules agree. |
| EventFormPage.WithField | src/pages/EventForm.tsx:196-229 | After typing `v` into one input of the draft, that field reads `v` and each of the four others reads as before. |
| EventFormPage.SuccessAlert | src/pages/EventForm.tsx:128-135 | Each branch has its own success message (`Events imported successfully` exactly for the bulk call, `Event updated successfully` exactly for the update, `Event created successfully` exactly for the create), and none is the failure fallback. |
| EventFormPage.FirstIncompleteRowAt | src/pages/EventForm.tsx:120-126 | An incomplete row at `i`, with every earlier row complete, is the row the check reports. |
| EventFormPage.MissingFields | src/pages/EventForm.tsx:122 | `!ev.name.trim() \|\| !ev.event_date.trim()` holds exactly for a row that is not complete (both directions). |
| EventFormPage.FindIncompleteRow | src/pages/EventForm.tsx:120-126 | The validation loop stops at, and returns, exactly the first incomplete row, and returns none when every row is complete. |
| EventFormPage.EventForm.constructor | src/pages/EventForm.tsx:47-56 | Opening the page: empty draft, no rows, no preview, nothing loaded. |
| EventFormPage.EventForm.ReceiveEvent | src/pages/EventForm.tsx:68-87 | A loaded event replaces the whole draft: nullable fields become `""` and the date follows the load rule. The upload state is kept. |
| EventFormPage.EventForm.Edit | src/pages/EventForm.tsx:196 | One draft field changes and nothing else, and only while the inputs are shown (no preview). |
| EventFormPage.EventForm.UploadCsv | src/pages/EventForm.tsx:90-112 | No file changes nothing. A file replaces the rows by its parse and turns the preview on, even with zero rows. The draft is kept. |
| EventFormPage.EventForm.ShowPreview | src/pages/EventForm.tsx:108-109 | The parsed rows replace the old ones and the preview turns on; the draft and the loaded event are kept, and the page invariant holds. |
| EventFormPage.EventForm.Submit | src/pages/EventForm.tsx:114-147 | With rows and an incomplete one, the only effect is that row's 1-based alert, with no call. Otherwise exactly one call: bulk create with the unchanged rows, else update of the draft in edit mode, else create of the draft. Success alerts per branch and navigates to `/events`. Failure alerts the first server message else `Error saving event(s)`, does not navigate, and changes no state. |
| EventFormPage.EventForm.Cancel | src/pages/EventForm.tsx:149-182 | With the preview on or rows present, it clears them and empties the draft, discarding anything typed before the upload. Otherwise it restores the loaded event in edit mode, or else empties the draft. The page always ends outside upload mode. |
| EventFormPage.HeaderOnlyUploadHasNoRows | src/pages/EventForm.tsx:97-109 | A file holding only a header line parses to no rows. |
| EventFormPage.HeaderOnlyUploadSubmitsDraft | src/pages/EventForm.tsx:108-136 | After a header-only upload the returned page state has the preview on and no rows, and Submit then issues a single create of the empty draft. |
| Paging.CountOrZero | src/pages/Events.tsx:85 | `totalCount \|\| 0`: an absent total counts as zero. |
| Paging.TotalPages | src/pages/Events.tsx:86 | `Math.ceil(totalCount / 10)`: the page count is the ceiling, `10·(p−1) < count ≤ 10·p`. |
| Paging.TotalPagesLeast | src/pages/Users.tsx:69 | The page count is the least count whose pages hold the total. For a non-negative total it is non-negative, and zero exactly for zero rows. |
| Paging.PrevEnabled | src/pages/Events.tsx:164 | On any page from 1 on, Prev is enabled exactly when the page below is still a page (the users list uses the same guard, Users.tsx:140). |
| Paging.NextEnabled | src/pages/Events.tsx:166 | On a page within the page count, Next is enabled exactly when a further page exists; with fewer than one page it is enabled on every page (the users list uses the same guard, Users.tsx:142). |
| Paging.NextEnabledWithoutRows | src/pages/Events.tsx:166 | With no rows there are 0 pages, and Next stays enabled on every page. |
| EventsListPage.With | src/pages/Events.tsx:118-129 | Editing one filter input sets it and keeps the four others. |
| EventsListPage.WithSameValue | src/pages/Events.tsx:118-129 | Setting an input to its current value changes nothing. |
| EventsListPage.EventsList.constructor | src/pages/Events.tsx:33-49 | Mounting: page 1, empty inputs and filters, no total, and the debounce armed by the effect's first run. |
| EventsListPage.EventsList.QueryVariables | src/pages/Events.tsx:51-54 | The query carries the page, size 10 and the committed filters, never the pending inputs. |
| EventsListPage.EventsList.Edit | src/pages/Events.tsx:67-79 | A new value re-arms the timer with the new inputs. The page is not reset, and the query is unchanged until the timer fires. |
| EventsListPage.EventsList.Fire | src/pages/Events.tsx:68-76 | All five committed filters become the current inputs at once, never a partial merge, and the timer is disarmed. |
| EventsListPage.EventsList.LoadResult | src/pages/Events.tsx:85 | The total becomes the answer's count, or 0 when absent. |
| EventsListPage.EventsList.Prev | src/pages/Events.tsx:164 | Disabled on page 1. Otherwise the page goes down by one and the timer is re-armed. The page stays at least 1. |
| EventsListPage.EventsList.Next | src/pages/Events.tsx:166 | Disabled when the page equals the page count. Otherwise the page goes up by one and the timer is re-armed. |
| EventsListPage.EditThenSettle | src/pages/Events.tsx:67-79 | An edit followed by the quiet period puts the edited value, and only it, into the query, on the same page. |
| UsersListPage.UsersList.constructor | src/pages/Users.tsx:32-37 | Mounting: page 1, empty name, role and pending name, and the debounce armed by the effect's first run. |
| UsersListPage.UsersList.QueryVariables | src/pages/Users.tsx:39-42 | The query carries the page, size 10, the committed name and the role, never the pending name. |
| UsersListPage.UsersList.EditName | src/pages/Users.tsx:59-62 | A new pending name re-arms the timer with it. The query is unchanged until the timer fires. |
| UsersListPage.UsersList.SelectRole | src/pages/Users.tsx:87 | The role goes into the query at once, and the timer and pending name are untouched. |
| UsersListPage.UsersList.Fire | src/pages/Users.tsx:60 | The committed name becomes the pending name, and the timer is disarmed. |
| UsersListPage.UsersList.LoadResult | src/pages/Users.tsx:68 | The total becomes the answer's count, or 0 when absent. |
| UsersListPage.UsersList.Prev | src/pages/Users.tsx:140 | Disabled on page 1. Otherwise one page down. The timer is untouched, and the page stays at least 1. |
| UsersListPage.UsersList.Next | src/pages/Users.tsx:142 | Disabled when the page equals the page count. Otherwise one page up, with the timer untouched. |
| UsersListPage.TwoEditsThenSettle | src/pages/Users.tsx:59-62 | Two names typed before the quiet period ends commit only the second. A role chosen in between is in the query at once. |
| DeleteConfirmation.DeleteGate.ForEvents | src/pages/Events.tsx:63-64 | The events dialog starts closed with no id, keeps itself open on failure, and falls back to `Error deleting event`. |
| DeleteConfirmation.DeleteGate.ForUsers | src/pages/Users.tsx:36-37 | The users dialog starts closed with no id, closes on failure, and falls back to `Error deleting user`. |
| DeleteConfirmation.DeleteGate.RequestDelete | src/pages/Events.tsx:156 | A row's delete button remembers that row's id and opens the dialog. |
| DeleteConfirmation.DeleteGate.Confirm | src/pages/Events.tsx:173-184 | A falsy id (none or 0) does nothing and leaves the dialog open. Otherwise one delete call with the id. Success closes the dialog and refetches. Failure alerts the first message else the fallback, does not refetch, and closes the dialog only on the users page. The id is never cleared. |
| DeleteConfirmation.DeleteGate.Cancel | src/pages/Events.tsx:185 | The dialog closes, no call is made, and the id is kept. |
| DeleteConfirmation.FailedDeleteOnBothPages | src/pages/Users.tsx:44-56 | The same failed deletion leaves the events dialog open and closes the users dialog. Both pages alert the server's first message, else their own fallback. |
| DeleteConfirmation.ZeroIdIsNoSelection | src/pages/Users.tsx:149 | On either page a row with id 0 cannot be deleted: confirming does nothing and the dialog stays open. |
| ChangePasswordPage.Toggled | src/pages/ChangePassword.tsx:71-73 | `toggleShow(f)` flips flag `f` and keeps the two others. |
| ChangePasswordPage.ToggleLaws | src/pages/ChangePassword.tsx:71-73 | Toggling a flag twice restores it, and toggles of two flags commute. |
| ChangePasswordPage.WithPassword | src/pages/ChangePassword.tsx:87 | After typing `v` into one password input, that input reads `v` and the two others read as before. |
| ChangePasswordPage.AnyEmpty | src/pages/ChangePassword.tsx:30 | The required-field test holds exactly when one of the three inputs is the empty string. |
| ChangePasswordPage.HandleSave | src/pages/ChangePassword.tsx:27-61 | The mutation is called exactly when all three fields are non-empty and the new password matches the confirmation. An empty field is reported first, before any mismatch. The call carries only the current and the new password. The token is removed, and the page goes to `/login`, exactly on success. Failure alerts the first message else `Error changing password.`. |
| ChangePasswordPage.PasswordForm.constructor | src/pages/ChangePassword.tsx:13-23 | Opening the page: three empty inputs and all three flags hidden. |
| ChangePasswordPage.PasswordForm.Edit | src/pages/ChangePassword.tsx:87 | One input changes; the flags are kept. |
| ChangePasswordPage.PasswordForm.Cancel | src/pages/ChangePassword.tsx:63-69 | All three inputs become `""`, and the show flags are unchanged. |
| ChangePasswordPage.PasswordForm.ToggleShow | src/pages/ChangePassword.tsx:71-73 | Exactly the chosen flag flips; the inputs are unchanged. |
| ChangePasswordPage.CancelThenSave | src/pages/ChangePassword.tsx:30-33 | Whatever was typed into the three inputs, after Cancel, Save reports `All fields are required.` and calls nothing. |
| UserFormPage.WithUserField | src/pages/UserForm.tsx:111 | After typing `v` into one input, that field reads `v` and the two others read as before. |
| UserFormPage.CreateAlert | src/pages/UserForm.tsx:75-80 | The create message differs from `User created successfully` exactly when the answer holds a user with a truthy id. It is then `User '<name>' created successfully`, and the name can be read back from it. |
| UserFormPage.UserForm.constructor | src/pages/UserForm.tsx:40-44 | The initial draft is name `""`, role `staff`, password `""`. |
| UserFormPage.UserForm.ReceiveUser | src/pages/UserForm.tsx:55-60 | A loaded user overwrites the name and the role, and the password is kept. |
| UserFormPage.UserForm.Edit | src/pages/UserForm.tsx:111 | One field changes. There is no password input in edit mode. |
| UserFormPage.UserForm.Submit | src/pages/UserForm.tsx:62-91 | Edit mode sends an update with the id, name and role only; create mode sends the whole draft. Success alerts per branch and navigates to `/users`. Failure alerts the first message else `Error saving user` and stays. |
| UserFormPage.UserForm.Cancel | src/pages/UserForm.tsx:93-100 | In edit mode with a loaded user, back to its name and role with password `""`. Otherwise back to `("", "staff", "")`. The password is always emptied. |
| UserFormPage.EditLoadedUser | src/pages/UserForm.tsx:55-72 | Editing a loaded user sends the typed name and the loaded role, and no password reaches the server. |

## Behaviour of the code worth knowing

- **Next with no rows.** With no rows there are 0 pages, and Next is disabled only when
  `page == totalPages`. So Next is enabled on page 1, and the page can grow past the last one
  (`Paging.NextEnabledWithoutRows`).
- **No page reset.** No filter change resets the page. On the events list, a page change only
  re-arms the debounce timer.
- **The selected id stays.** The selected id is never cleared. On a failed deletion the events
  dialog stays open, and only the users dialog closes (`DeleteConfirmation.FailedDeleteOnBothPages`).
- **Zero id.** An id of `0` counts as no selection (`DeleteConfirmation.ZeroIdIsNoSelection`).
- **Header-only upload.** A header-only upload shows an empty preview. Submitting then takes the
  single-event branch, not the bulk branch (`EventFormPage.HeaderOnlyUploadSubmitsDraft`).
- **Two date rules.** The date is normalised one way on load and another way on cancel; they
  differ for a date longer than ten characters without `T` (`EventFormPage.DateRulesAgreeIff`).
- **Typing before an upload.** On the create page, uploading a file keeps whatever was typed into
  the single-event draft (`EventFormPage.EventForm.UploadCsv`). Cancel in upload mode then
  discards it along with the rows (`EventFormPage.EventForm.Cancel`).

## Left out

- GraphQL transport, Apollo cache, authentication header and routing. Each call's outcome is a
  parameter (`Response`), and navigation is an output string.
- Loading and error rendering of the lists, and the `loading` early return that hides the buttons
  while a query runs.
- `FileReader` and asynchronous file reading. The parser starts from the text already read, and
  the empty file selection is `None`.
- Real time. `setTimeout`, `clearTimeout` and the 700 ms delay become the armed/disarmed timer,
  and clearing the timer on unmount is not modelled.
- Concurrency: out-of-order responses, stale-response suppression (the code has none), and a
  second confirm while a deletion is in flight.
- Browser constraint validation of inputs marked `required`. It can stop a form from submitting
  before the handler runs. The handlers are modelled as written, as if they were reached.
- `parseInt` of a route id that is not a number. The route id is taken as an integer.
- EventFormPage.PrefillDate: cuts at ten Unicode code points, while JavaScript's
  `substring(0, 10)` counts UTF-16 code units, so for a date holding characters outside the Basic
  Multilingual Plane the page keeps fewer characters than the model does. Strings throughout the
  model are sequences of code points, and this cut is the only place where that matters: the
  whitespace set and the `,`, `\n` and `T` separators all lie inside that plane, so splitting and
  trimming are unaffected.
- The GraphQL schema types of loaded records. A loaded date is taken to be a string, and the
  model does not cover a number or another date value passed through `String(...)`.
- Markup, styles, the confirmation dialog's rendering (its buttons exist only while it is open,
  which is a precondition of `Confirm` and `Cancel`), the monitor window, the login page and
  date formatting in table cells.
- React's effect scheduling. The prefill effects run exactly when a query answers, with the value
  it answered (`ReceiveEvent`, `ReceiveUser`).
