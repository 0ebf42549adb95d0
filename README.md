# Demo applications: the rules behind the windows

The repository is a set of PySimpleGUI demo applications. Each one keeps
some plain decision logic inside its event loop. This project lifts that
logic out, models it in Dafny and proves what it does. One module stands for
each component:

- `Siret`, `Validation`, `Entries`, `Reports`, `Numbering`, `Backups`,
  `Calculator`: the accounting application (`demos/Accounting.py`). They
  cover the SIRET, VAT-number and e-mail checks and the account, client and
  supplier forms. They also cover acceptance of a ledger line and of a whole
  entry, invoice totals, the general-ledger running balance, the
  trial-balance split, the profit-and-loss result, the `C`/`F`/`FA` codes,
  the choice of backups to delete, and the calculator's keys and display.
- `ImageHistory`: the image editor's bounded undo/redo history
  (`demos/Images_Editeur.py`), as the class `ImageEditor` with the source's
  fields.
- `SqliteBrowser`: the SQLite browser's statement builders, its table
  filter, its pager state (class `DataView`) and the conversion of the record
  form (`demos/Data_SQLite.py`).
- `Dashboard`: the alert rules, the gauge colours, the threshold update and
  the bounded histories of the system dashboard (`demos/Dashboard.py`).
- `PortRange`: the port-range parser of the network scanner and the
  round trip of its "Common Ports" text
  (`demos/Network_Scanner_and_Port_Monitor.py`).
- `Downloads`: the download manager's admission rule, its worker counter,
  its table filter and its counts (`demos/Multi-threaded_Download_Manager.py`).
- `FileManager`: the file manager's icons, listing order, counts and
  navigation, and its clipboard (class `Browser`)
  (`demos/Advanced_File_Manager_with_Preview.py`).
- `RealTimeMonitor`: the 60-point sliding window and the check-box alerts of
  the real-time monitor (`demos/Real-Time_System_Monitor.py`).
- `Text`: the string helpers they share. These are Python's `int()`,
  `strip()`, `split()`, `join()` and `str()` of an integer, ASCII
  `lower()`/`upper()`, prefix and suffix tests, and Option/Result.

Inputs that come from outside the program are parameters. These are the
file lists, the creation times, the clock, psutil readings, the images PIL
produces, the outcome of a worker thread and a function standing for
`float()`.

Notes about the model:

- The SIRET check doubles the digits at odd 0-based positions counted from
  the left (`demos/Accounting.py:895`). Standard Luhn on 14 digits doubles
  the even positions instead. `Siret.ValidateSiret` models the code as
  written. `Siret.SiretIsLuhnOfShifted` shows it is Luhn applied to the
  number followed by a `0`. `Siret.LuhnValidSiretRejected` names a
  Luhn-valid number that the check rejects.
- The 'Max Concurrent' spin box (demos/Multi-threaded_Download_Manager.py:171) is created without `enable_events=True`. So the `-MAX_CONCURRENT-` handler (:302-303) never runs, and Downloads.DownloadManager.SetMaxConcurrent models code the window cannot reach.
- No handler sets a download's status to `'Cancelled'`. The 'Cancel' menu entry (:160) and the 'Cancel All' button (:163) have no handler, and the status is only read at :51. So the `Stopped` outcome of Downloads.DownloadManager.FinishTransfer models a branch that cannot be taken.
- Two downloads started in the same second get the same id. They share one
  table entry while two workers run (`Downloads.SameSecondStarts`).
- No handler of the file manager sets the clipboard operation to `'cut'`.
  The `Browser.Valid` invariant shows the cut branch of Paste is never taken.
- 'Clear Completed' removes only statuses that are exactly `Completed` or
  exactly `Error`. A failed download's status is `Error: <message>`, so it
  is never cleared (`Downloads.ClearKeepsActiveAndFailed`).

## Model

| member | source | states |
|---|---|---|
| Siret.ValidateSiret | demos/Accounting.py:885-904 | true exactly when the text is 14 ASCII digits and the sum (even positions as is, odd positions doubled, minus 9 when above 9) is divisible by 10 |
| Siret.Weight | demos/Accounting.py:893-899 | a digit's weight is at most 9; it is the digit itself on one parity and the doubled digit folded below 10 on the other |
| Siret.SiretIsLuhnOfShifted | demos/Accounting.py:885-904 | the check accepts a 14-character text exactly when standard Luhn accepts it with a trailing 0 |
| Siret.LuhnValidSiretRejected | demos/Accounting.py:895 | "00000000000018" passes standard Luhn and is rejected by the check |
| Siret.ZerosThenOneEight | demos/Accounting.py:891-904 | any 14 characters made of twelve zeros, then 1, then 8 pass standard Luhn (sum 10) and are rejected by the check (sum 8) |
| Siret.ZeroPrefixSum | demos/Accounting.py:891-903 | a run of zeros is all digits and adds 0 to the sum, whichever parity is doubled |
| Validation.Find | demos/Accounting.py:879-882 | the position of the first occurrence of the character, None exactly when it does not occur |
| Validation.FindLast | demos/Accounting.py:879-882 | the position of the last occurrence of the character, None exactly when it does not occur |
| Validation.ValidEmail | demos/Accounting.py:879-882 | the e-mail check accepts a text exactly when it matches the pattern: local part, '@', domain, '.', at least two letters, with an optional final newline |
| Validation.EmailCheckSound | demos/Accounting.py:879-882 | every text the search-based check accepts has a split the pattern accepts |
| Validation.EmailCheckComplete | demos/Accounting.py:879-882 | every split the pattern accepts makes the search-based check succeed |
| Validation.BodyCheckSpec | demos/Accounting.py:879-882 | without a final newline, the check accepts a text exactly when the pattern matches all of it |
| Validation.BodyEndsWithLetter | demos/Accounting.py:881 | a text the pattern matches ends with an ASCII letter, so never with a newline |
| Validation.VatComposition | demos/Accounting.py:907-910 | "FR", any two-character key of digits or capitals and nine digits is a valid VAT number, with or without a final newline |
| Validation.ValidVat | demos/Accounting.py:907-910 | a valid VAT number is 13 characters (or 14 ending in a newline): "FR", a two-character key of digits or capitals, then digits |
| Validation.CheckUserForm | demos/Accounting.py:1030-1044 | the form passes exactly when the required fields are filled, the passwords match, the password has at least 4 characters and the e-mail is empty or valid; each error is returned exactly when its own rule fails and every earlier rule holds |
| Validation.CheckClientForm | demos/Accounting.py:2250-2284 | the client form passes exactly when code and name are filled, the e-mail is empty or valid, the SIRET is empty or valid, the credit limit is blank or a float, the payment terms are blank or an integer, and no other client has the code; each error is returned exactly when its own rule fails and every earlier rule holds |
| Validation.CheckSupplierForm | demos/Accounting.py:2407-2414 | the supplier form passes exactly when code and name are filled and the e-mail is empty or valid; a missing code or name, or else an invalid non-empty e-mail, is reported exactly when it occurs, and never a SIRET error |
| Validation.SupplierIsClientWithoutSiret | demos/Accounting.py:2250-2284 | the supplier check is the client check with an empty SIRET, blank numeric fields and a new code |
| Entries.CommaToDot | demos/Accounting.py:913-921 | every ',' becomes '.', every other character is kept, the length is unchanged |
| Entries.ValidateAmount | demos/Accounting.py:913-921 | the amount is what `float()` gives for the text with every ',' read as '.'; without a comma, what it gives for the text itself |
| Entries.CommaReadsAsPoint | demos/Accounting.py:916-918 | two texts that differ only by ',' against '.' give the same amount |
| Entries.OrZero | demos/Accounting.py:2029-2030 | a non-empty field is kept as it is |
| Entries.AcceptLine | demos/Accounting.py:2024-2049 | an accepted line has an account and a wording, a known non-zero account id, the parsed amounts, and not both amounts positive and not both zero |
| Entries.LineAmountRule | demos/Accounting.py:2029-2042 | with valid fields the line is rejected exactly when both amounts are positive or both are zero, with the matching error |
| Entries.BlankIsZero | demos/Accounting.py:2029-2030 | a blank amount field behaves exactly like "0" |
| Entries.NegativeAgainstZeroAccepted | demos/Accounting.py:2036-2042 | a negative amount against a zero is accepted as it is |
| Entries.AcceptEntry | demos/Accounting.py:1929-1943 | an entry is saved exactly when number, date and wording are filled, it has a line and debits and credits differ by at most 0.01; the saved total is the sum of the debits |
| Entries.Abs | demos/Accounting.py:1941 | the absolute value is non-negative and equals x or -x |
| Entries.TotalDebitNonNegative | demos/Accounting.py:2069 | the stored total of lines with non-negative debits is non-negative |
| Entries.TotalsAppend | demos/Accounting.py:1938-1939 | adding a line adds its debit and its credit to the entry's totals |
| Entries.AcceptInvoiceLine | demos/Accounting.py:2616-2626 | an invoice line is accepted exactly when description, quantity and price are filled and the three numbers parse; an accepted line carries those numbers and consistent net, VAT and gross amounts |
| Entries.InvoiceTotals | demos/Accounting.py:2644-2666 | the totals are the sum of the line nets and of the line VAT, and gross is their sum |
| Entries.GrossTotal | demos/Accounting.py:2644-2666 | for well-formed lines the invoice's gross total equals the sum of the lines' gross amounts |
| Entries.UniformRate | demos/Accounting.py:2644-2666 | when every line has the same rate the total VAT is the total net times that rate |
| Reports.GeneralLedger | demos/Accounting.py:707-747 | an unknown account gives no ledger; otherwise one row per movement whose balance is the initial balance plus the movements up to and including it, and the final balance is the initial plus all of them |
| Reports.NetAppend | demos/Accounting.py:735-747 | the movement total of two runs of movements is the sum of their totals |
| Reports.LedgerStep | demos/Accounting.py:735-747 | each row's balance is the previous row's balance plus its debit minus its credit |
| Reports.BalanceSplit | demos/Accounting.py:2927-2930 | both balance columns are non-negative, at most one is non-zero, and their difference is debit minus credit |
| Reports.BalanceSplitUnique | demos/Accounting.py:2927-2930 | the split is the only pair with those three properties |
| Reports.TrialBalance | demos/Accounting.py:2925-2941 | one split per account row, and the debit and credit totals are the sums over the rows |
| Reports.TrialBalanceConsistent | demos/Accounting.py:2925-2941 | the total debit balance minus the total credit balance equals the total debit minus the total credit, and both are non-negative |
| Reports.NetResult | demos/Accounting.py:693-695 | the result plus the charges equals the products |
| Reports.ResultLabel | demos/Accounting.py:2859-2861 | the result is shown as a profit exactly when it is not negative |
| Reports.SumAppend | demos/Accounting.py:693-694 | the sum of two runs of amounts is the sum of their sums |
| Reports.NetResultAdditive | demos/Accounting.py:693-695 | the result over two periods combined is the sum of their results |
| Reports.ProfitWhenCovered | demos/Accounting.py:693-695 | the result is a profit exactly when products are at least charges |
| Numbering.Zeros | demos/Accounting.py:2238 | k '0' characters |
| Numbering.ZeroPad | demos/Accounting.py:2238 | the digits padded on the left to the width, never shortened |
| Numbering.Format06 | demos/Accounting.py:2238 | the `:06d` text of a number has at least 6 characters and starts with '-' exactly when the number is negative |
| Numbering.Code | demos/Accounting.py:2238 | a code is the prefix followed by at least 6 characters |
| Numbering.NextNumber | demos/Accounting.py:2232-2238 | 1 after no number or after 0, otherwise the last number plus one |
| Numbering.PaddedValue | demos/Accounting.py:2238 | a zero-padded number parses back to the number |
| Numbering.Format06Value | demos/Accounting.py:2238 | `int()` reads the `:06d` text of any number back as that number |
| Numbering.CodeRoundTrip | demos/Accounting.py:2232-2238 | removing the prefix of a code and parsing the rest gives the number back |
| Numbering.CodeInjective | demos/Accounting.py:2390-2396 | two numbers with the same code are equal |
| Numbering.NextCodeIsNew | demos/Accounting.py:2532-2538 | the next code differs from the code of every number up to the last one |
| Numbering.SixCharacterCodes | demos/Accounting.py:2238 | numbers from -99999 to 999999 take exactly 6 characters |
| Numbering.FirstCodes | demos/Accounting.py:2232-2238 | the first client code is C000001 and the invoice after number 41 is FA000042 |
| Backups.BackupPath | demos/Accounting.py:862 | every backup path lies in the backup directory |
| Backups.BackupsOf | demos/Accounting.py:859-863 | there are no more backups than listed names; BackupsOfNames and BackupsOfComplete state that they are exactly the `backup_*.db` files |
| Backups.BackupsOfNames | demos/Accounting.py:859-863 | every backup comes from a `backup_*.db` name of the listing, with that file's path and creation time |
| Backups.BackupsOfComplete | demos/Accounting.py:859-863 | every `backup_*.db` name of the listing gives a backup |
| Backups.ListedBackupKeptOrDoomed | demos/Accounting.py:859-870 | every `backup_*.db` file of the listing is either among the `keep` newest or deleted |
| Backups.SortNewestFirst | demos/Accounting.py:866 | the sorted list is a permutation of the backups |
| Backups.SortIsSorted | demos/Accounting.py:866 | the sorted list is newest first by creation time |
| Backups.CleanupOldBackups | demos/Accounting.py:856-870 | the files to delete are the backups beyond the `keep` newest, as paths |
| Backups.KeptAndDoomedPartition | demos/Accounting.py:866-870 | the kept and the deleted backups together are exactly the backups, and min(keep, count) are kept |
| Backups.DoomedAreBackups | demos/Accounting.py:859-870 | every deleted file is a `backup_*.db` file of the listing |
| Backups.DoomedAreOldest | demos/Accounting.py:866-870 | no deleted backup is newer than a kept one |
| Backups.NothingDoomedUnderLimit | demos/Accounting.py:869-870 | with at most `keep` backups nothing is deleted |
| Calculator.Typed | demos/Accounting.py:3290-3294 | a digit replaces a lone "0" current number, so the result is that digit alone, and is appended to any other |
| Calculator.Negated | demos/Accounting.py:3345-3350 | a current number of "0" is kept; otherwise a leading '-' is removed or one is added |
| Calculator.Calculator.Digit | demos/Accounting.py:3290-3295 | the current number (`current_number`) becomes the typed text, stays well formed and is shown |
| Calculator.Calculator.Point | demos/Accounting.py:3297-3300 | a point is added to the current number, and shown, only when it has none; otherwise the display is left as it was |
| Calculator.Calculator.Operator | demos/Accounting.py:3302-3306 | the current number becomes the pending number, the operator is stored, the current number becomes "0", and the display shows the pending number, a space and the operator |
| Calculator.Calculator.Equals | demos/Accounting.py:3308-3334 | nothing happens without a pending number and operator; a result becomes the current number and the display and clears both; a division by zero makes the current number and the display "Erreur" and clears both; an exception shows "Erreur", resets the current number to "0" and keeps both |
| Calculator.Calculator.Clear | demos/Accounting.py:3336-3340 | current number "0" and shown, no pending number, no operator |
| Calculator.Calculator.ClearEntry | demos/Accounting.py:3342-3344 | only the current number is reset to "0", and shown |
| Calculator.Calculator.Negate | demos/Accounting.py:3346-3351 | the current number becomes its negation; the display is updated only when the number was not "0" |
| Calculator.NegatedTwice | demos/Accounting.py:3346-3351 | pressing ± twice gives back any current number the calculator can hold |
| Calculator.TypedWellFormed | demos/Accounting.py:3290-3294 | typing a digit keeps the current number well formed |
| Calculator.NegatedWellFormed | demos/Accounting.py:3346-3351 | ± keeps the current number well formed |
| Calculator.TypingNumber | demos/Accounting.py:3290-3294 | typing a number without a leading zero onto a fresh current number gives that number |
| Calculator.AppendDigits | demos/Accounting.py:3290-3294 | when the current number is not "0", typed digits are appended |
| ImageHistory.Bounded | demos/Images_Editeur.py:54-57 | a history longer than 20 loses exactly its oldest entry |
| ImageHistory.ImageEditor.LoadImage | demos/Images_Editeur.py:25-43 | after a successful load the history is the image alone and the cursor is 0; a failed load changes nothing |
| ImageHistory.ImageEditor.SaveToHistory | demos/Images_Editeur.py:45-57 | entries after the cursor are dropped, the image on screen is appended, at most 20 stay and the cursor is on the last |
| ImageHistory.ImageEditor.Undo | demos/Images_Editeur.py:59-65 | fails at the first entry and changes nothing; otherwise steps back and shows that entry |
| ImageHistory.ImageEditor.Redo | demos/Images_Editeur.py:67-73 | fails at the last entry and changes nothing; otherwise steps forward and shows that entry |
| ImageHistory.ImageEditor.ApplyEdit | demos/Images_Editeur.py:88-183 | without an image the edit fails and nothing changes; otherwise the image as it was is pushed and then replaced when the operation applies |
| ImageHistory.ImageEditor.Reset | demos/Images_Editeur.py:471-475 | the original image is shown again and pushed on the history |
| ImageHistory.ImageEditor.SliderMoved | demos/Images_Editeur.py:521-544 | a move of more than 0.1 shows the adjusted original and is remembered; the history never changes |
| ImageHistory.TwoEditsThenUndo | demos/Images_Editeur.py:93 | two edits followed by one undo show the loaded image, not the first edit |
| ImageHistory.EditUndoRedoLosesEdit | demos/Images_Editeur.py:93 | one edit, undo and redo show the loaded image: the edit is lost |
| ImageHistory.ImageEditor.ApplyEditRecorded | demos/Images_Editeur.py:88-110 | with the push after the change, the cursor's entry is the image on screen |
| ImageHistory.UndoRedoAfterRecordedEdit | demos/Images_Editeur.py:59-73 | with the push after the change, undo after an edit shows the image before it and redo shows the edit |
| ImageHistory.TwoRecordedEditsThenUndo | demos/Images_Editeur.py:59-65 | with the push after the change, two edits and one undo show the first edit |
| SqliteBrowser.Keys | demos/Data_SQLite.py:107 | the column names of the record, in order |
| SqliteBrowser.Values | demos/Data_SQLite.py:109 | the values of the record, in order |
| SqliteBrowser.Repeat | demos/Data_SQLite.py:108 | n copies of the text |
| SqliteBrowser.Assignments | demos/Data_SQLite.py:114 | one "col = ?" per column, in order |
| SqliteBrowser.InsertRecord | demos/Data_SQLite.py:105-110 | the INSERT statement's parameters are the record's values in column order |
| SqliteBrowser.InsertPlaceholders | demos/Data_SQLite.py:105-110 | the INSERT text holds exactly one '?' per value when names hold none |
| SqliteBrowser.UpdateRecord | demos/Data_SQLite.py:112-117 | the UPDATE statement's parameters are the record's values followed by the WHERE parameters |
| SqliteBrowser.UpdatePlaceholders | demos/Data_SQLite.py:112-117 | the UPDATE text holds exactly one '?' per parameter when the names and the WHERE clause hold as many as their parameters |
| SqliteBrowser.DeleteRecord | demos/Data_SQLite.py:119-122 | the DELETE statement ends in the WHERE clause and passes its parameters |
| SqliteBrowser.DeletePlaceholders | demos/Data_SQLite.py:119-122 | the DELETE text has as many '?' as its WHERE clause |
| SqliteBrowser.Render | demos/Data_SQLite.py:135 | `str()` of a default value: an integer is written so that `int()` reads it back, a text is itself, a boolean is "True" exactly when true |
| SqliteBrowser.ColumnDefinition | demos/Data_SQLite.py:127-136 | "name type", then " PRIMARY KEY", " NOT NULL" and " DEFAULT d" in that order, each present exactly when its flag or default is truthy |
| SqliteBrowser.BuildDefinition | demos/Data_SQLite.py:128-135 | the definition built clause by clause is the column's definition |
| SqliteBrowser.CreateTableFromSchema | demos/Data_SQLite.py:124-138 | the statement is CREATE TABLE, the table name and the column definitions of the schema joined by ", " in parentheses |
| SqliteBrowser.UserTables | demos/Data_SQLite.py:60-65 | every listed table is a name of the database that does not start with "sqlite_" |
| SqliteBrowser.UserTablesAppend | demos/Data_SQLite.py:65 | the filter keeps the order of the names |
| SqliteBrowser.UserTablesMembers | demos/Data_SQLite.py:65 | a name is listed exactly when it is a table and does not start with "sqlite_" |
| SqliteBrowser.Offset | demos/Data_SQLite.py:304-306 | the offset is 0 exactly on the first page or with an empty page size |
| SqliteBrowser.OffsetStep | demos/Data_SQLite.py:304-306 | each page starts one page size after the page before it |
| SqliteBrowser.TotalPages | demos/Data_SQLite.py:340 | the least number of pages of the given size that hold all rows |
| SqliteBrowser.PagesShown | demos/Data_SQLite.py:342 | the page count shown is 1 without rows and the number of pages otherwise |
| SqliteBrowser.PageStarts | demos/Data_SQLite.py:304-306 | a page exists exactly when its offset is before the last row |
| SqliteBrowser.DataView.Load | demos/Data_SQLite.py:295-347 | a loaded table becomes the current one and the view shows its offset, page size and page count |
| SqliteBrowser.DataView.SelectTable | demos/Data_SQLite.py:528-532 | selecting a table goes back to page 0 |
| SqliteBrowser.DataView.SetPageSize | demos/Data_SQLite.py:534-538 | a new page size goes back to page 0 when a table is open |
| SqliteBrowser.DataView.NextPage | demos/Data_SQLite.py:540-543 | with a table open the page goes up by one, without an upper bound |
| SqliteBrowser.DataView.PreviousPage | demos/Data_SQLite.py:545-548 | the page goes down by one only above 0 with a table open |
| SqliteBrowser.DataView.Refresh | demos/Data_SQLite.py:550-552 | the current page is reloaded unchanged |
| SqliteBrowser.Convert | demos/Data_SQLite.py:604-610 | a BOOLEAN column gives 1 exactly when the value is truthy (a ticked box or a non-empty text) and 0 otherwise; an empty text gives NULL; anything else is kept |
| SqliteBrowser.RecordFromForm | demos/Data_SQLite.py:601-611 | the record built by the loop is the converted form |
| SqliteBrowser.RecordEntriesFromForm | demos/Data_SQLite.py:601-611 | every entry of the record is a column present in the form with its converted value |
| SqliteBrowser.RecordHasPresentColumns | demos/Data_SQLite.py:601-611 | every column present in the form appears in the record |
| SqliteBrowser.RecordOfEmptyForm | demos/Data_SQLite.py:601-611 | a form without fields gives an empty record |
| Dashboard.SeverityOf | demos/Dashboard.py:130 | critical exactly from 95 (98 for disk), warning below |
| Dashboard.AlertFor | demos/Dashboard.py:126-131 | the alert names the resource and carries the sample's percentage, timestamp and severity |
| Dashboard.CheckAlerts | demos/Dashboard.py:119-151 | an alert for a resource exactly when its percentage is above its threshold, CPU before memory before disk, at most three, each with the sample's values and severity |
| Dashboard.AlertsDescribe | demos/Dashboard.py:119-151 | at most three alerts, each describing the sample |
| Dashboard.AlertsOrdered | demos/Dashboard.py:125-148 | alerts come in the order CPU, memory, disk |
| Dashboard.AlertsRaised | demos/Dashboard.py:125-143 | a resource raises an alert exactly when its percentage is above its threshold |
| Dashboard.Band | demos/Dashboard.py:297-339 | red above the red limit, orange above the orange limit up to the red one, green otherwise |
| Dashboard.BandMonotone | demos/Dashboard.py:297-339 | a higher percentage never shows a calmer colour |
| Dashboard.AlertIffRed | demos/Dashboard.py:36-40 | with the default thresholds a resource raises an alert exactly when its gauge is red |
| Dashboard.CriticalIsRed | demos/Dashboard.py:130 | a critical alert is always on a red gauge |
| Dashboard.Append | demos/Dashboard.py:381-384 | a full deque drops its oldest item; the new item is last and the others keep their order |
| Dashboard.AppendKeepsLatest | demos/Dashboard.py:27-34 | after an append the deque ends with the latest items in order |
| Dashboard.SystemMonitor.constructor | demos/Dashboard.py:24-40 | empty histories and thresholds 80, 85 and 90 |
| Dashboard.SystemMonitor.RecordSample | demos/Dashboard.py:381-384 | each history receives its value of the sample and keeps at most 100 |
| Dashboard.SystemMonitor.UpdateThresholds | demos/Dashboard.py:465-472 | succeeds exactly when the three texts convert; the thresholds before the first failure are already replaced |
| PortRange.ParsePorts | demos/Network_Scanner_and_Port_Monitor.py:126-133 | with a '-', success exactly when the text has two pieces that `int()` reads, giving the ports from the first to the second inclusive; with ',' and no '-', success exactly when every stripped piece is a number, giving those numbers; otherwise the one port `int()` reads |
| PortRange.UnpackTwo | demos/Network_Scanner_and_Port_Monitor.py:128 | the unpacking succeeds exactly when there are two pieces and both are numbers; it reports a bad number exactly when a piece among the first three that `int()` is applied to fails before the count is checked |
| PortRange.Range | demos/Network_Scanner_and_Port_Monitor.py:129 | the ports from lo up to hi - 1, ascending, none when lo is not below hi |
| PortRange.ParsePieces | demos/Network_Scanner_and_Port_Monitor.py:131 | one port per comma-separated piece |
| PortRange.ParsePiecesSpec | demos/Network_Scanner_and_Port_Monitor.py:131 | the pieces parse exactly when each stripped piece is an integer, giving those integers in order |
| PortRange.DashForm | demos/Network_Scanner_and_Port_Monitor.py:127-129 | "a-b" gives a..b inclusive, ascending, and nothing when a > b |
| PortRange.CommaForm | demos/Network_Scanner_and_Port_Monitor.py:130-131 | a text with ',' and no '-' is parsed piece by piece |
| PortRange.SingleForm | demos/Network_Scanner_and_Port_Monitor.py:132-133 | any other text is a single port |
| PortRange.MixedFormFails | demos/Network_Scanner_and_Port_Monitor.py:127-128 | '-' takes precedence, so a text with both '-' and ',' fails |
| PortRange.SeveralDashesFail | demos/Network_Scanner_and_Port_Monitor.py:128 | more than one '-' fails, with the piece-count error exactly when the first three pieces are numbers |
| PortRange.DoubleDashIsNotANumber | demos/Network_Scanner_and_Port_Monitor.py:128 | "a--b" reports a bad number, because the empty middle piece is converted before the count is checked |
| PortRange.EmptySideFails | demos/Network_Scanner_and_Port_Monitor.py:128 | a range with an empty side fails |
| PortRange.JoinedPortsRoundTrip | demos/Network_Scanner_and_Port_Monitor.py:130-131 | a comma-joined list of at least one port parses back to the same list |
| PortRange.CommonPortsText | demos/Network_Scanner_and_Port_Monitor.py:16 | the "Common Ports" text is non-empty, made of digits and ',' only, without '-' |
| PortRange.CommonPortsRoundTrip | demos/Network_Scanner_and_Port_Monitor.py:16 | the "Common Ports" text parses back to the 15 common ports |
| Downloads.FilenameFromPath | demos/Multi-threaded_Download_Manager.py:32-37 | for a non-empty path, everything after its last '/' (the whole path without one, empty after a final '/'); `download_<seconds>` only for an empty path |
| Downloads.DownloadId | demos/Multi-threaded_Download_Manager.py:102 | the id is "dl_" followed by the seconds in decimal |
| Downloads.DownloadIdsDistinct | demos/Multi-threaded_Download_Manager.py:102 | starts in different seconds get different ids |
| Downloads.ActiveCount | demos/Multi-threaded_Download_Manager.py:234 | at most the number of entries, and 0 exactly when no entry is "Starting" or "Downloading" |
| Downloads.CompletedCount | demos/Multi-threaded_Download_Manager.py:235 | at most the number of entries, and 0 exactly when no entry is "Completed" |
| Downloads.JoinPath | demos/Multi-threaded_Download_Manager.py:100 | the joined path ends in the file name |
| Downloads.ClearCompleted | demos/Multi-threaded_Download_Manager.py:305-307 | keeps exactly the entries whose status is neither "Completed" nor "Error", unchanged |
| Downloads.ClearKeepsActiveAndFailed | demos/Multi-threaded_Download_Manager.py:85 | an active download and a failed one ("Error: ...") are kept |
| Downloads.ClearCounts | demos/Multi-threaded_Download_Manager.py:234-235 | after clearing the active count is unchanged and the completed count is 0 |
| Downloads.CountsBounded | demos/Multi-threaded_Download_Manager.py:234-235 | active plus completed never exceeds the number of entries |
| Downloads.DownloadManager.StartDownload | demos/Multi-threaded_Download_Manager.py:93-122 | refused at the limit with nothing changed; otherwise a "Starting" entry with progress 0 and one more worker |
| Downloads.DownloadManager.BeginTransfer | demos/Multi-threaded_Download_Manager.py:42 | the worker's entry becomes "Downloading" when it still exists |
| Downloads.DownloadManager.UpdateProgress | demos/Multi-threaded_Download_Manager.py:286-293 | only a known entry gets the new progress, speed and total size; nothing else changes |
| Downloads.DownloadManager.FinishTransfer | demos/Multi-threaded_Download_Manager.py:39-91 | "Completed" with the end time, "Error: message" or unchanged, and in every case one worker fewer |
| Downloads.DownloadManager.SetMaxConcurrent | demos/Multi-threaded_Download_Manager.py:302-303 | the new limit is stored |
| Downloads.DownloadManager.ClearFinished | demos/Multi-threaded_Download_Manager.py:305-307 | the table becomes its cleared form |
| Downloads.SameSecondStarts | demos/Multi-threaded_Download_Manager.py:104 | two starts in the same second give one entry and two running workers |
| FileManager.Parent | demos/Advanced_File_Manager_with_Preview.py:210 | the parent drops the last component; the root is its own parent |
| FileManager.Suffix | demos/Advanced_File_Manager_with_Preview.py:19-27 | empty exactly when the name has no '.' after its first character or ends with '.'; otherwise the part of the name from its last '.' on |
| FileManager.FileIcon | demos/Advanced_File_Manager_with_Preview.py:15-30 | the folder icon exactly for directories; for a file, each group's icon exactly when the lower-cased suffix is in that group and in no earlier one, and the default icon exactly when no group lists it |
| FileManager.GroupsDisjoint | demos/Advanced_File_Manager_with_Preview.py:19-28 | no suffix is listed in two groups |
| FileManager.ListedSuffixIcon | demos/Advanced_File_Manager_with_Preview.py:15-30 | a file whose lower-cased suffix is in the document, video, music or archive group gets that group's icon |
| FileManager.NoSuffixDefaultIcon | demos/Advanced_File_Manager_with_Preview.py:15-30 | a file without a suffix gets the default icon |
| FileManager.LexLeTotal | demos/Advanced_File_Manager_with_Preview.py:36 | any two names are comparable |
| FileManager.LexLeTrans | demos/Advanced_File_Manager_with_Preview.py:36 | the name order is transitive |
| FileManager.Insert | demos/Advanced_File_Manager_with_Preview.py:36 | inserting adds exactly the item |
| FileManager.SortListing | demos/Advanced_File_Manager_with_Preview.py:36 | the listing is a permutation of the directory's items |
| FileManager.SortOrdered | demos/Advanced_File_Manager_with_Preview.py:36 | the listing is ordered by the sort key |
| FileManager.ListingOrder | demos/Advanced_File_Manager_with_Preview.py:36 | directories come before files and each group is sorted by lower-cased name, as a permutation |
| FileManager.Contents | demos/Advanced_File_Manager_with_Preview.py:32-50 | one row per item, in the order of the sorted listing |
| FileManager.DirCount | demos/Advanced_File_Manager_with_Preview.py:183 | the folder count never exceeds the number of rows |
| FileManager.StatusCounts | demos/Advanced_File_Manager_with_Preview.py:183-185 | folders plus files is the number of rows |
| FileManager.SizeColumn | demos/Advanced_File_Manager_with_Preview.py:39 | the size column is '<DIR>' for anything that is not a file, and the size text for a file |
| FileManager.DirCountOfRows | demos/Advanced_File_Manager_with_Preview.py:183 | rows carrying the size columns of the items count one folder per item that is not a file |
| FileManager.NoDirTextPermutation | demos/Advanced_File_Manager_with_Preview.py:36 | reordering the entries keeps every file's size text free of '<DIR>' |
| FileManager.NonFileCountPermutation | demos/Advanced_File_Manager_with_Preview.py:36 | sorting does not change the folder count |
| FileManager.FolderCount | demos/Advanced_File_Manager_with_Preview.py:176-185 | the status line's folder count is the number of non-files of the directory |
| FileManager.TransferOf | demos/Advanced_File_Manager_with_Preview.py:268-277 | one clipboard item goes to its name in the current directory, copied exactly for the copy operation and moved for cut |
| FileManager.Transfers | demos/Advanced_File_Manager_with_Preview.py:266-277 | one transfer per clipboard item, in clipboard order |
| FileManager.Browser.constructor | demos/Advanced_File_Manager_with_Preview.py:10-13 | the home directory and an empty clipboard |
| FileManager.Browser.Home | demos/Advanced_File_Manager_with_Preview.py:205-207 | the path becomes the home directory |
| FileManager.Browser.Up | demos/Advanced_File_Manager_with_Preview.py:209-212 | the path becomes its parent unless it is the root, which stays |
| FileManager.Browser.GoTo | demos/Advanced_File_Manager_with_Preview.py:214-223 | the path changes only to an existing directory |
| FileManager.Browser.Open | demos/Advanced_File_Manager_with_Preview.py:225-243 | opening a folder row enters it; any other row leaves the path |
| FileManager.Browser.Copy | demos/Advanced_File_Manager_with_Preview.py:255-262 | a valid row puts exactly its full path on the clipboard with operation copy; otherwise nothing changes |
| FileManager.Browser.Paste | demos/Advanced_File_Manager_with_Preview.py:264-287 | nothing without a clipboard and an operation; otherwise the clipboard's transfers, and the clipboard is emptied only after a cut that did not fail |
| FileManager.CopyThenPaste | demos/Advanced_File_Manager_with_Preview.py:255-287 | a copy followed by a paste copies that row into the current directory |
| RealTimeMonitor.NetworkUsage | demos/Real-Time_System_Monitor.py:53-61 | 0 without previous counters, otherwise the change of both counters in megabytes |
| RealTimeMonitor.Last | demos/Real-Time_System_Monitor.py:69-72 | the last n items, or all when fewer |
| RealTimeMonitor.AppendTrim | demos/Real-Time_System_Monitor.py:64-72 | appending then trimming keeps the last 60 of the longer history |
| RealTimeMonitor.CheckAlerts | demos/Real-Time_System_Monitor.py:195-204 | a CPU alert exactly when its box is ticked and CPU is above 80, the same for memory, CPU first |
| RealTimeMonitor.LogAfter | demos/Real-Time_System_Monitor.py:201-204 | one log line, with the clock text and the alerts, appended for an update with alerts; the log unchanged otherwise |
| RealTimeMonitor.Monitor.Step | demos/Real-Time_System_Monitor.py:47-72 | one new value on each series, the oldest dropped from all three above 60, the counters remembered |
| RealTimeMonitor.Window | demos/Real-Time_System_Monitor.py:64-72 | a series fed value by value holds as many values as it received, at most 60 |
| RealTimeMonitor.WindowIsLatest | demos/Real-Time_System_Monitor.py:64-72 | after any run of values the series is the last 60 of them, oldest first |
| RealTimeMonitor.WindowAppend | demos/Real-Time_System_Monitor.py:64-72 | one more value is appended, and the oldest dropped when the series was full, as `Step` does |
| RealTimeMonitor.CpuValues | demos/Real-Time_System_Monitor.py:50 | the CPU value of each reading, in order |
| RealTimeMonitor.MemoryValues | demos/Real-Time_System_Monitor.py:51 | the memory value of each reading, in order |
| RealTimeMonitor.NetworkValues | demos/Real-Time_System_Monitor.py:53-61 | the network value of each reading, computed from the counters of the reading before it |
| RealTimeMonitor.UsageSeries | demos/Real-Time_System_Monitor.py:53-61 | one value per reading, computed from the reading and the counters remembered before it |
| RealTimeMonitor.NetworkValuesUsage | demos/Real-Time_System_Monitor.py:53-59 | the first network value is 0; each later one, in megabytes, is the bytes sent and received since the reading before |
| RealTimeMonitor.ValuesAppend | demos/Real-Time_System_Monitor.py:50-51 | one more reading adds its CPU and memory values at the end |
| RealTimeMonitor.UsageSeriesAppend | demos/Real-Time_System_Monitor.py:53-61 | one more reading adds its usage at the end |
| RealTimeMonitor.Run | demos/Real-Time_System_Monitor.py:47-72 | after any run of readings each of the three series is the last 60 of its values, oldest first |
| Text.Strip | demos/Network_Scanner_and_Port_Monitor.py:131 | `strip()`: the result is empty exactly when the text is all white space; otherwise it starts and ends with a character that is not white space |
| Text.Split | demos/Network_Scanner_and_Port_Monitor.py:128-131 | `split()` on one character: at least one piece, and no piece holds the separator |
| Text.JoinSplit | demos/Network_Scanner_and_Port_Monitor.py:128-131 | joining the pieces with the separator gives the text back |
| Text.SplitJoin | demos/Network_Scanner_and_Port_Monitor.py:16 | joining at least one piece free of the separator and splitting the result gives the pieces back |
| Text.ParseInt | demos/Network_Scanner_and_Port_Monitor.py:128-133 | `int()`: a number exactly when the stripped text is an optional sign followed by at least one digit; a negative number only after '-' |
| Text.ParseIntDecimalInt | demos/Data_SQLite.py:135 | `int()` reads back the decimal text of any integer |
| Text.Basename | demos/Multi-threaded_Download_Manager.py:36 | `os.path.basename`: a final part of the path that holds no '/', and either the whole path or what follows a '/' |

## Left out

- The windows, widgets, popups and event loops. Only the decisions inside the handlers are modelled.
- SQLite execution and the SQL inside the report queries. The rows they return are inputs.
- Threads, thread pools and `write_event_value`. Each worker or monitoring step is a sequential method.
- PIL image processing, psutil, sockets, `requests`, matplotlib and SHA-256 password hashing. Their results are inputs or type parameters.
- File and OS I/O: configuration and history files, CSV export, the backup copies, `shutil`, directory listings and creation times, and `Path.exists()`. Listings and times are inputs. A transfer that completes but whose `save_history()` then raises ends with status "Error: …" and `end_time` already set (demos/Multi-threaded_Download_Manager.py:69-85); no outcome of Downloads.DownloadManager.FinishTransfer gives that state, because the history file is not modelled.
- The clock. The seconds of `time.time()` are a `nat` parameter of the download id, the default file name and the end time of a download. The `%H:%M:%S` text of `time.strftime` is a string parameter of RealTimeMonitor.LogAfter. Its format is not modelled. One reading of the seconds serves the default file name, the download id and the start time of Downloads.DownloadManager.StartDownload, where the source reads `time.time()` three times (demos/Multi-threaded_Download_Manager.py:37, :102, :110); `start_time` is a float in the source and whole seconds in the model.
- Float behaviour. Amounts and percentages are exact reals here. Rounding, `:,.2f` formatting, `format_size`, download speeds and progress percentages are not modelled.
- `float()` parsing. It is a parameter (`string -> Option<real>`), and so is `validate_date` (`strptime`).
- Python's `int()` on `_` separators and non-ASCII digits, and Unicode `lower()`. The model uses ASCII digits and ASCII case.
- Text.Strip: white space is the ASCII white space (space, tab, newline, vertical tab, form feed, carriage return) and the separators U+001C to U+001F. The non-ASCII white space Python also strips, such as U+0085, U+00A0 and U+3000, is not modelled.
- `urlparse`. The download manager receives the path part of the URL.
- Validation.CheckClientForm: the query for another client with the same code (demos/Accounting.py:2272-2284) is the boolean parameter `codeTaken`; `float()` of the credit limit is the parameter `parseFloat`; the values converted and the save that follows are not modelled.
- Calculator.Calculator.Equals: the arithmetic and `str()` of the float result are not modelled; the key receives its outcome.
- Dashboard.SystemMonitor.UpdateThresholds: `float()` is a parameter, so the texts it accepts are not modelled.
- SqliteBrowser.DataView.SetPageSize: requires a positive page size; the combo box offers only 25, 50, 100 and 200, and a typed value that is not one of them is not modelled.
- SqliteBrowser.Render: the text of a default value is Python's `str()` for integers, text and booleans only; floats are not modelled.
- Backups.SortNewestFirst: the order of backups with equal creation times is not fixed by the model.
- FileManager.Browser.GoTo: whether the path exists and is a directory is an input. The model's paths are absolute component lists. A relative path typed into the path box (`Path(values['-PATH-'])`, demos/Advanced_File_Manager_with_Preview.py:216) is not modelled.
- FileManager.Contents: an entry whose `stat()` raises `PermissionError` is skipped by the source (demos/Advanced_File_Manager_with_Preview.py:50-51). A directory that cannot be read gives an empty listing (demos/Advanced_File_Manager_with_Preview.py:53-55). The model's listing is an input, so it holds exactly the entries that could be read, and neither error is modelled.
- FileManager.FileIcon: the icons are named, not drawn; the preview's own suffix lists are not modelled.
- ImageHistory.ImageEditor.ApplyEdit: the image each operation produces is an input; PIL's behaviour is not modelled.
- `demos/Advanced_Multi-Tab_Application_with_Database.py` (SQLite CRUD only) and `setup.py` (packaging) are not part of this model.

## Findings

| source | as written | input that shows it | evidently intended | confidence | as-written member | corrected member |
|---|---|---|---|---|---|---|
| demos/Images_Editeur.py:93 | each edit pushes the image as it was before the change, so the history never holds the result of the last edit | load `a`, apply edits giving `b` then `c`, undo: `a` is shown; load `a`, edit to `b`, undo, redo: `a` is shown | undo reverts only the last edit and redo brings it back | not executed | ImageHistory.TwoEditsThenUndo | ImageHistory.TwoRecordedEditsThenUndo |
