# SKRD certificates: a Dafny model

SKRD (Surat Ketetapan Retribusi Daerah) is a regional levy certificate for a
building permit. The application keeps one row per certificate in an `skrd`
table and one row per account in a `profiles` table. Three roles use it:

- **Staff** draft a certificate. The form spells the amount in Indonesian words and gives it a
  generated document number. Staff also resubmit a certificate after a revision request, and
  delete drafts that are not yet issued.
- **The department head (kepala dinas)** approves a draft, or sends it back with a revision
  note. Approval stamps the issue date, the due date 30 days later, and a link to a public
  verification page. The head also sees a yearly recap of paid certificates.
- **The super admin** creates accounts, edits them and switches them on and off.

Anyone holding a certificate's QR code can open the verification page. The
login page routes each role to its dashboard.

The model has one module per page or library file. There are also shared modules:

- `JsString` holds the JavaScript string built-ins the pages rely on: the digit filters, dot
  grouping, `parseInt`, `toString`, `padStart`, `split`, `trim`, `toLowerCase` and `includes`.
- `UriComponent` holds `encodeURIComponent` over UTF-8 and the decoding done by
  `URLSearchParams`.
- `SkrdStore` holds the certificate row and the table as a class. Its methods insert, update
  by id, delete by id and select a single row.
- `Lifecycle` holds the certificate states and the patches that move a row between them.
- `SkrdListing` holds the search, tab filter and counters that both dashboards share.
- `Profiles` holds the account table.

Page state becomes a class per page, and each event handler becomes a method
that changes the page and the table. Store errors, the session user, the
clock and the browser origin become method parameters. Timestamps are whole
days. The calendar month of a payment date is a function parameter.

## Model

| member | source | states |
|---|---|---|
| Terbilang.Words | lib/utils/terbilang.ts:1-38 | The spelling starts with a space for every amount below 10^15 and is empty from 10^15 on; recursion is on the absolute value, which strictly decreases |
| Terbilang.WordsIgnoresSign | lib/utils/terbilang.ts:2 | The spelling of -n is the spelling of n |
| Terbilang.WordsBands | lib/utils/terbilang.ts:6-34 | The band equations: one word below 12, "belas", "puluh", fused "seratus", "ratus", fused "seribu", "ribu", "juta", "milyar", "trilyun", and the multiplier before "ratus"/"ribu" is at least 2 |
| Terbilang.ReadWordsRoundTrip | lib/utils/terbilang.ts:1-38 | An independent reader of Indonesian number words maps the spelling of every amount below 10^15 back to its absolute value |
| Terbilang.WordsInjective | lib/utils/terbilang.ts:1-38 | Different amounts below 10^15 are spelled differently |
| Terbilang.SpotValues | lib/utils/terbilang.ts:3-22 | 0 is " ", 12 is " dua belas", 100 is " seratus ", 1000 is " seribu " |
| Terbilang.SpotValuesScaled | lib/utils/terbilang.ts:23-28 | A zero part leaves inner double spaces: 100000 is " seratus  ribu ", 3000000 is " tiga juta " |
| AutoNomor.RomanMonth | lib/hooks/useAutoNomor.ts:15-18 | Months 1 to 12 give "I" to "XII" in order; any other value gives "I" |
| AutoNomor.RomanMonthInjective | lib/hooks/useAutoNomor.ts:16 | Different months give different numerals |
| AutoNomor.LatestIsNewest | lib/hooks/useAutoNomor.ts:27-32 | The chosen row ends in "/year" and has the highest id among such rows; there is none exactly when no number ends in "/year" |
| AutoNomor.YearRows | lib/hooks/useAutoNomor.ts:30 | Exactly the rows whose number ends in "/year" |
| AutoNomor.LatestIgnoresOtherYears | lib/hooks/useAutoNomor.ts:27-32 | Rows of other years never change which row is chosen |
| AutoNomor.NextSeq | lib/hooks/useAutoNomor.ts:36-47 | With no previous number, fewer than three "/"-fields or an unparsable third field the sequence is 1; otherwise it is the parsed third field plus one |
| AutoNomor.NextSeqFromField | lib/hooks/useAutoNomor.ts:38-47 | A sequence other than 1 is the parsed third "/"-field of the previous number plus one |
| AutoNomor.SeqFieldDigits | lib/hooks/useAutoNomor.ts:51 | A non-negative sequence is padded with zeros to at least 3 digits, never truncated, and keeps its value |
| AutoNomor.FormatOfYear | lib/hooks/useAutoNomor.ts:30-54 | A number generated for a year is matched by the next search for that year |
| AutoNomor.NomorRoundTrip | lib/hooks/useAutoNomor.ts:40-54 | Taking a generated number with sequence k as the previous number gives k + 1, because the fixed prefix holds exactly two fields |
| AutoNomor.PrefixFields | lib/hooks/useAutoNomor.ts:54 | The fixed prefix splits into exactly the two fields "SKRD-PBG" and "PERKIMTAN-GW" |
| AutoNomor.NomorGenerator.constructor | lib/hooks/useAutoNomor.ts:11-12 | The hook starts with "Memuat nomor..." and loading set |
| AutoNomor.NomorGenerator.Generate | lib/hooks/useAutoNomor.ts:20-64 | A store error gives "Error generating number"; otherwise the number is prefix, padded next sequence, Roman month and year; loading ends either way |
| JsString.KeepDigits | app/staff/create/page.tsx:51 | Only digits remain, never more characters than the input, and a digit string is kept whole |
| JsString.KeepDigitsConcat | app/staff/create/page.tsx:51 | The filter of a concatenation is the concatenation of the filters |
| JsString.KeepDigitsOne | app/staff/create/page.tsx:51 | A single character is kept exactly when it is a digit; with the previous row, the result is the input's digits in order |
| JsString.GroupThousandsDots | app/staff/create/page.tsx:59 | The grouped amount has a dot exactly every fourth character from the right and digits elsewhere |
| JsString.StripGroupThousands | app/staff/create/page.tsx:59-80 | Removing the dots from a grouped digit string gives the digit string back |
| JsString.ParseIntDigits | app/staff/create/page.tsx:62-80 | `parseInt` of a non-empty digit string is its decimal value |
| JsString.NatToString | app/staff/revisi/page.tsx:81 | `toString` of a natural number is a digit string with that value and no leading zero |
| JsString.PadStart | lib/hooks/useAutoNomor.ts:51 | The result has the target length or the input's, whichever is larger, and is fill characters followed by the input |
| JsString.SplitJoin | lib/hooks/useAutoNomor.ts:40 | Joining the fields of `split` with the separator gives the string back |
| JsString.SplitPrefix | lib/hooks/useAutoNomor.ts:40 | A separator-free prefix before a separator is exactly the first field |
| JsString.TrimStart | app/staff/create/page.tsx:63 | Only leading JavaScript white space is removed, and the result starts with none |
| JsString.TrimEnd | app/staff/create/page.tsx:63 | Only trailing JavaScript white space is removed, and the result ends with none |
| JsString.TrimPadded | app/staff/create/page.tsx:63 | Trimming the leading (and trailing) space of a spelling gives the bare words |
| JsString.Utf16Length | app/super_admin/detail/page.tsx:67 | The UTF-16 length lies between the number of code points and twice it, and equals it when no character lies above U+FFFF |
| JsString.IncludesAt | app/staff/dashboard/page.tsx:93-94 | A string includes every substring found at some position |
| JsString.KeepDigitsAndSpaces | app/super_admin/create/page.tsx:226 | Only digits and spaces remain, and an input made of them is kept whole |
| JsString.KeepDigitsAndSpacesConcat | app/super_admin/create/page.tsx:226 | The filter of a concatenation is the concatenation of the filters |
| JsString.KeepDigitsAndSpacesOne | app/super_admin/create/page.tsx:226 | A single character is kept exactly when it is a digit or a space; with the previous row, the result is the input's digits and spaces in order |
| AmountInput.AmountChangeConsistent | app/staff/create/page.tsx:50-64 | Every input leaves the amount and its words consistent; the amount without dots is the digits typed, and it is clear with words "-" exactly when no digit was typed |
| AmountInput.CleanAmountMatchesWords | app/staff/create/page.tsx:62-80 | What a consistent field submits is a non-negative number whose spelling is the words shown |
| AmountInput.LoadedConsistent | app/staff/revisi/page.tsx:81-83 | A stored amount shown grouped on load, with its stored words, is a consistent field that resubmits the same amount |
| AmountInput.AmountWordsZero | app/staff/create/page.tsx:62-63 | An amount of 0 is shown as " rupiah" |
| AmountInput.AmountWordsOf | app/staff/create/page.tsx:63 | The words shown are the spelling without its outer spaces, followed by " rupiah" |
| UriComponent.Utf8RoundTrip | app/kepala_dinas/detail/page.tsx:99 | Decoding the UTF-8 encoding of any string gives the string back |
| UriComponent.DecodeOneUtf8 | app/kepala_dinas/detail/page.tsx:99 | The decoder reads back each encoded character with exactly its byte length |
| UriComponent.Encode | app/kepala_dinas/detail/page.tsx:99 | The encoding holds only unreserved characters and "%" |
| UriComponent.EncodeUnreserved | app/kepala_dinas/detail/page.tsx:99 | A string of unreserved characters is left as it is |
| UriComponent.EncodeRoundTrip | app/kepala_dinas/detail/page.tsx:99 | Percent-decoding the encoding of any string gives the string back |
| UriComponent.LinkParamRoundTrip | app/verify/page.tsx:13-14 | Reading a parameter back from base + "?" + name + "=" + encoded value gives the value |
| SkrdStore.Inserted | app/staff/create/page.tsx:95-107 | An inserted row gets the table's id and the sent number and status; every approval column is null |
| SkrdStore.PatchedNoChange | app/kepala_dinas/detail/page.tsx:103-110 | An empty patch changes nothing |
| SkrdStore.UpdateWhere | app/kepala_dinas/detail/page.tsx:111 | `update(...).eq('id', id)` keeps the length, the order and every id; each row with the id becomes that row patched, and every row with another id is unchanged |
| SkrdStore.DeleteWhere | app/staff/dashboard/page.tsx:118-121 | Exactly the rows with another id remain |
| SkrdStore.WithNomor | app/staff/create/page.tsx:81-85 | Exactly the rows with the given number match |
| SkrdStore.WithNomorNone | app/verify/page.tsx:28 | A number no row has matches nothing |
| SkrdStore.DeleteAt | app/staff/dashboard/page.tsx:125 | With distinct ids, deleting a row's id cuts out exactly that row and keeps the others in order |
| SkrdStore.DeleteAbsent | app/staff/dashboard/page.tsx:125 | Deleting an id no row has changes nothing |
| SkrdStore.SingleByNomorUnique | app/staff/create/page.tsx:81-87 | With distinct numbers, `.single()` finds no row exactly when no row has the number, and otherwise returns the row with it |
| SkrdStore.DeleteKeepsDistinct | app/staff/dashboard/page.tsx:118-121 | Deleting keeps ids distinct |
| SkrdStore.Table.constructor | app/staff/create/page.tsx:95-97 | An empty table whose next id is 1 |
| SkrdStore.Table.Insert | app/staff/create/page.tsx:95-109 | Success appends the inserted row and advances the id; an error leaves the table as it was |
| SkrdStore.Table.Update | app/kepala_dinas/detail/page.tsx:101-113 | Success patches the rows with that id; an error leaves the table as it was |
| SkrdStore.Table.Delete | app/staff/dashboard/page.tsx:118-123 | Success removes the rows with that id; an error leaves the table as it was |
| SkrdStore.Table.SelectSingle | app/staff/create/page.tsx:81-85 | The single row with the number, and nothing on an error |
| Lifecycle.VerifyLinkResolves | app/kepala_dinas/detail/page.tsx:98-99 | The verification link's `nomor_surat` parameter decodes to the certificate's own number |
| Lifecycle.ApproveIssues | app/kepala_dinas/detail/page.tsx:94-110 | Approval gives a well-formed issued row: approver, issue date, due date 30 days later, the link, note cleared; no other column changes |
| Lifecycle.RevisionWithdraws | app/kepala_dinas/detail/page.tsx:137-145 | A revision request gives a well-formed unissued row with the note as typed, approver and issue date cleared; no other column changes |
| Lifecycle.UpdateKeepsWellformed | app/kepala_dinas/detail/page.tsx:111-145 | An update by id keeps every row well-formed when the patched rows are |
| Lifecycle.InsertedWellformed | app/staff/create/page.tsx:95-107 | A new row with status false is well-formed and not issued |
| Lifecycle.InsertKeepsWellformed | app/staff/create/page.tsx:95-107 | Inserting such a row keeps every row well-formed |
| StaffCreate.NewRowOf | app/staff/create/page.tsx:97-107 | The row sent holds the number shown, status false, the dot-stripped parsed amount and the words shown |
| StaffCreate.ErrorAlert | app/staff/create/page.tsx:118 | The alert prefix ("Gagal membuat surat: " here, "Gagal menyimpan perubahan: " on the revision page) followed by the error message, or by "Unknown error" when it is empty |
| StaffCreate.NewRowWordsMatch | app/staff/create/page.tsx:69-104 | A validated consistent form stores an amount that its stored words spell |
| StaffCreate.InsertKeepsNumbersDistinct | app/staff/create/page.tsx:81-107 | Inserting only after the check found no row keeps numbers distinct |
| StaffCreate.CreatePage.constructor | app/staff/create/page.tsx:17-27 | Blank fields, amount "" with words "-", modal closed |
| StaffCreate.CreatePage.HandleJumlahChange | app/staff/create/page.tsx:50-64 | The amount field becomes the change function of the input and stays consistent; nothing else changes |
| StaffCreate.CreatePage.HandleValidate | app/staff/create/page.tsx:66-74 | The confirmation opens only when all six fields are filled in |
| StaffCreate.CreatePage.ExecuteSubmit | app/staff/create/page.tsx:76-122 | A used number is regenerated and nothing is stored (no retry); otherwise one row is inserted, or an insert error stores nothing and raises the alert; the modal closes |
| StaffRevisi.RevisiAcceptsMore | app/staff/revisi/page.tsx:116 | Every form the create page accepts, the revision page accepts; one with an empty account code shows the revision page accepts more |
| StaffRevisi.ResubmitEffect | app/staff/revisi/page.tsx:129-142 | The resubmitted row is the old row with owner, address, account code, levy type, amount, words and department head replaced by the form's, status false and no note; every other column, the approval columns, due date and link included, is kept |
| StaffRevisi.ResubmitKeepsWellformed | app/staff/revisi/page.tsx:129-142 | Resubmitting an unissued well-formed row keeps it well-formed |
| StaffRevisi.ResubmitIssuedBreaks | app/staff/revisi/page.tsx:129-142 | Resubmitting an issued row leaves it unissued but still carrying approver and issue date |
| StaffRevisi.RevisiPage.constructor | app/staff/revisi/page.tsx:19-35 | No id, blank fields, empty amount, no note, modal closed |
| StaffRevisi.RevisiPage.Load | app/staff/revisi/page.tsx:58-91 | No number loads nothing; an error or no single row goes back to the dashboard; a row fills id, number, note and fields, and its non-null amount is shown grouped with its stored words; without a row, id, number, note, fields and amount stay |
| StaffRevisi.RevisiPage.HandleJumlahChange | app/staff/revisi/page.tsx:97-111 | The same amount rule as the create page; nothing else changes |
| StaffRevisi.RevisiPage.HandleValidate | app/staff/revisi/page.tsx:113-121 | The confirmation opens only when owner, address, amount and department head are filled in; no other field changes |
| StaffRevisi.RevisiPage.ExecuteUpdate | app/staff/revisi/page.tsx:123-159 | Success applies the resubmission patch to the loaded id only; an error changes nothing and raises the alert; the modal closes and no form field changes; with no loaded id no row changes |
| KadisDetail.ActionsAfter | app/kepala_dinas/detail/page.tsx:323 | After approval the actions disappear; after a revision request they are offered again |
| KadisDetail.Refetched | app/kepala_dinas/detail/page.tsx:33-62 | With a non-empty number and no error, the view becomes the row when exactly one row has the number; in every other case it stays; a changed view is always a stored row with that number |
| KadisDetail.DetailPage.constructor | app/kepala_dinas/detail/page.tsx:24-31 | No data, empty reason, both modals closed |
| KadisDetail.DetailPage.FetchDetail | app/kepala_dinas/detail/page.tsx:33-62 | The view is `Refetched` of the old view: the single row with the number, or unchanged on an error, without a number or without exactly one match; the other page fields stay |
| KadisDetail.DetailPage.ExecuteValidasi | app/kepala_dinas/detail/page.tsx:88-125 | Without a session or on an error nothing is stored and "Terjadi kesalahan: ..." is raised; otherwise the row with the shown id is approved with the verification link and the view refetched |
| KadisDetail.DetailPage.HandleAjukanRevisi | app/kepala_dinas/detail/page.tsx:127-159 | A blank reason does nothing; without a session or on an error nothing is stored and "Gagal mengajukan revisi: ..." is raised; otherwise the row with the shown id is sent back with the reason as typed, the modal closes and the reason clears |
| SkrdListing.ExactlyOneTab | app/staff/dashboard/page.tsx:96-101 | A row with a status is on exactly one tab |
| SkrdListing.Filtered | app/staff/dashboard/page.tsx:92-104 | A row is shown exactly when its number or owner contains the query ignoring case and its status matches the tab |
| SkrdListing.CountsPartition | app/kepala_dinas/dashboard/page.tsx:50-51 | Pending, published and null-status rows add up to all rows; pending plus published is the total exactly when no status is null |
| SkrdListing.CounterIsTabLength | app/staff/dashboard/page.tsx:63-104 | With an empty search, each counter is the length of its tab |
| SkrdListing.SearchFindsOwnNumber | app/staff/dashboard/page.tsx:93 | Searching for a row's number, in any case, finds the row |
| SkrdListing.DeletePendingCount | app/staff/dashboard/page.tsx:125-127 | Deleting a pending row lowers the pending count by one and keeps the published count |
| SkrdListing.CountRemove | app/staff/dashboard/page.tsx:125 | Cutting out one row removes exactly that row's contribution to a count |
| SkrdListing.CountConcat | app/staff/dashboard/page.tsx:63-64 | Counts add over concatenation |
| SkrdListing.PublishedShowsIssueDate | app/kepala_dinas/dashboard/page.tsx:432-437 | A well-formed published row always shows its issue date |
| SkrdListing.PaymentLabel | app/kepala_dinas/dashboard/page.tsx:453 | The label is "LUNAS" exactly when the payment status is "LUNAS", and "BELUM" otherwise |
| StaffDashboard.RowLinkResolves | app/staff/dashboard/page.tsx:420-443 | The row's link, to the revision or the detail page, carries the row's own number |
| StaffDashboard.FixLinkGuardsResubmit | app/staff/dashboard/page.tsx:420 | A revision request makes the row link to the revision page, and resubmitting a row that links there keeps it well-formed |
| StaffDashboard.Dashboard.constructor | app/staff/dashboard/page.tsx:33-48 | No rows, matching counters, delete modal closed |
| StaffDashboard.Dashboard.FetchData | app/staff/dashboard/page.tsx:50-74 | Success shows the table and counts its statuses; an error changes nothing |
| StaffDashboard.Dashboard.OpenDeleteModal | app/staff/dashboard/page.tsx:106-109 | An issued row opens nothing; any other row opens the modal with its id |
| StaffDashboard.Dashboard.ExecuteDelete | app/staff/dashboard/page.tsx:111-137 | No id (or id 0) does nothing; success deletes by id from table and list and lowers the pending counter without going below 0; an error only closes the modal; deleting an offered pending row keeps the counters matching |
| KadisDashboard.PendingTabOffersActions | app/kepala_dinas/detail/page.tsx:323 | Every pending row offers approval and revision, and so does a null-status row that is on neither tab |
| KadisDashboard.FetchData | app/kepala_dinas/dashboard/page.tsx:37-62 | An error gives "Gagal memuat data."; otherwise the rows, with counters equal to the tab lengths, which add up to the total when no status is null |
| Rekapitulasi.Slot | app/kepala_dinas/rekapitulasi/page.tsx:102-115 | A cell is chosen only for a paid row with a payment date, always inside the 4x3 chart; a paid row dated in month m (0 to 11) lands in quarter m / 3, month m % 3 |
| Rekapitulasi.PaidRowAddsToItsCell | app/kepala_dinas/rekapitulasi/page.tsx:105-115 | Adding a paid row dated in month m adds its amount to cell (m / 3, m % 3) and to no other cell |
| Rekapitulasi.RevenueSplit | app/kepala_dinas/rekapitulasi/page.tsx:97-117 | Revenue is the chart total plus the paid amounts without a cell |
| Rekapitulasi.ChartWithinRevenue | app/kepala_dinas/rekapitulasi/page.tsx:97-117 | With non-negative amounts the chart total is at most the revenue, and equal when every paid row has a payment date |
| Rekapitulasi.UnplacedBounds | app/kepala_dinas/rekapitulasi/page.tsx:105-115 | The paid amounts without a cell are non-negative, and zero when every paid row has a payment date |
| Rekapitulasi.MaxQuarterIsLargest | app/kepala_dinas/rekapitulasi/page.tsx:124-130 | The running maximum is at least 0 and every quarter total, and is 0 or one of them |
| Rekapitulasi.CountPaidRows | app/kepala_dinas/rekapitulasi/page.tsx:87 | The loop counts the paid rows |
| Rekapitulasi.FillChart | app/kepala_dinas/rekapitulasi/page.tsx:93-117 | The loop sums the paid amounts and fills each of the 4x3 cells with its paid amounts |
| Rekapitulasi.LargestQuarter | app/kepala_dinas/rekapitulasi/page.tsx:124-130 | The loop finds the largest quarter total, or 0 |
| Rekapitulasi.CalculateStatistics | app/kepala_dinas/rekapitulasi/page.tsx:75-140 | An error yields nothing; otherwise total, paid count and share, revenue against the 4,000,000,000 target, the chart and its scale (1.1 times the largest quarter, or 10,000,000) |
| Rekapitulasi.PaidPercentBounded | app/kepala_dinas/rekapitulasi/page.tsx:90 | The paid share is between 0 and 100, and 0 for no rows |
| VerifyPage.KeyOf | app/verify/page.tsx:13-35 | A non-empty `nomor_surat` wins; a non-empty `id` is used only without one; otherwise nothing is looked up |
| VerifyPage.WithId | app/verify/page.tsx:31 | Exactly the rows whose id reads as the parameter |
| VerifyPage.Show | app/verify/page.tsx:19-98 | A shown record is in the table and there was no error; "paid" is exactly status "LUNAS"; the QR code is the stored link or the page address; no key shows not found |
| VerifyPage.Lookup | app/verify/page.tsx:24-40 | Data comes from the table without an error, and without a key there is none |
| VerifyPage.SameNomorSameRow | app/verify/page.tsx:28-37 | With distinct numbers, two rows with the same number are the same row |
| VerifyPage.IssuedLinkShowsRecord | app/verify/page.tsx:13-98 | Opening an issued certificate's own link shows that certificate, with the link as QR code |
| VerifyPage.UnknownNomorNotFound | app/verify/page.tsx:37-95 | A number no row has is shown as not found |
| VerifyPage.LunasAgreesWithDashboard | app/verify/page.tsx:97 | The page says "paid" exactly when the dashboards label the row "LUNAS" |
| Profiles.SetActive | app/super_admin/dashboard/page.tsx:99-108 | Only the rows with the id get the new flag; the others and the order stay |
| Profiles.SetDetails | app/super_admin/detail/page.tsx:109-118 | Only the rows with the id get the new name, NIP, role, flag and signature; id and email are kept |
| Profiles.CountReplace | app/super_admin/dashboard/page.tsx:127-128 | Replacing one row changes a count only by that row's contribution |
| Profiles.SetActiveCounts | app/super_admin/dashboard/page.tsx:106-128 | With distinct ids, switching one account replaces exactly that row and moves it between the counters |
| Profiles.ProfileTable.constructor | app/super_admin/dashboard/page.tsx:47-53 | The table holds the given rows |
| Profiles.ProfileTable.UpdateActive | app/super_admin/dashboard/page.tsx:99-104 | Success sets the flag on the rows with the id; an error changes nothing |
| Profiles.ProfileTable.UpdateDetails | app/super_admin/detail/page.tsx:109-120 | Success writes the details to the rows with the id; with a null id no row changes and the outcome is the failure parameter's; an error changes nothing |
| SuperAdminDashboard.FilterUsers | app/super_admin/dashboard/page.tsx:119-125 | An account is shown exactly when its email, name or NIP, missing read as "", contains the query ignoring case |
| SuperAdminDashboard.EmptyQueryShowsAll | app/super_admin/dashboard/page.tsx:119-125 | An empty query shows every account |
| SuperAdminDashboard.FormatRole | app/super_admin/dashboard/page.tsx:130-141 | The three roles get display names, any other role is shown as it is, and a missing or empty one as "-" |
| SuperAdminDashboard.Dashboard.constructor | app/super_admin/dashboard/page.tsx:30-39 | No accounts, modal closed |
| SuperAdminDashboard.Dashboard.OpenConfirmModal | app/super_admin/dashboard/page.tsx:88-90 | The modal opens with the account's id and status |
| SuperAdminDashboard.Dashboard.HandleConfirmAction | app/super_admin/dashboard/page.tsx:93-117 | No id does nothing; success flips the flag in the table and the list and closes the modal; an error changes nothing and raises "Gagal mengubah status." |
| SuperAdminDashboard.ToggleMovesCounter | app/super_admin/dashboard/page.tsx:101-128 | A toggle moves the account from one counter to the other |
| SuperAdminCreate.ValidateCreate | app/super_admin/create/page.tsx:22-36 | The form is confirmed exactly when the four starred fields are filled and a department head has a file; otherwise the matching alert |
| SuperAdminCreate.NipFilter | app/super_admin/create/page.tsx:225-227 | The NIP field keeps only digits and spaces, filtering again changes nothing, and a typed character is appended exactly when it is a digit or a space |
| SuperAdminCreate.FailureAlert | app/super_admin/create/page.tsx:82-101 | "Error: " followed by the endpoint's error, or by "Gagal membuat akun user." |
| SuperAdminCreate.CreatePage.constructor | app/super_admin/create/page.tsx:12-20 | Empty fields, role "staff", no file, modal closed |
| SuperAdminCreate.CreatePage.ExecuteSubmit | app/super_admin/create/page.tsx:38-105 | A failed upload sends nothing; otherwise the request carries the form and a signature URL only for a department head with a file; success resets every field and the role to "staff"; failure keeps the form |
| SuperAdminDetail.ValidateUpdate | app/super_admin/detail/page.tsx:64-83 | Confirmed exactly when the new password is empty or long enough and repeated, and a department head has a stored or new signature; a short password, a mismatch and a head without signature are rejected with their own alerts, each exactly when its check is the first to fail |
| SuperAdminDetail.EmptyPasswordPasses | app/super_admin/detail/page.tsx:67-72 | An empty new password passes both password checks |
| SuperAdminDetail.FinalTtdUrl | app/super_admin/detail/page.tsx:89-107 | The signature stays the existing one unless a department head uploads a new file |
| SuperAdminDetail.KadisKeepsSignature | app/super_admin/detail/page.tsx:77-107 | A confirmed department head always ends up with a non-empty signature |
| SuperAdminDetail.DetailPage.constructor | app/super_admin/detail/page.tsx:20-31 | Empty fields, role "staff", active, no file or passwords |
| SuperAdminDetail.DetailPage.Load | app/super_admin/detail/page.tsx:40-62 | A found account fills the form, missing columns read as "" and a missing role as "staff"; nothing found changes nothing |
| SuperAdminDetail.DetailPage.ExecuteUpdate | app/super_admin/detail/page.tsx:85-154 | A failed upload stores nothing; the details go to the account's row; a password change is requested only after a successful update with a new password; success clears the password fields; the profile fields, email and chosen file stay |
| Login.Route | app/page.tsx:62-68 | super_admin and kepala_dinas go to their dashboards; staff and every other role go to /staff/dashboard |
| Login.RedirectBasedOnRole | app/page.tsx:34-77 | A database error, a missing profile and an inactive account each stay with their message; only an active account is redirected, to its role's route |
| Login.LoginMessage | app/page.tsx:115-119 | "Invalid login credentials" is shown as "Email atau Password salah."; any other message as it is |

## Left out

- Supabase itself is not modelled: the query builder, authentication, storage uploads and
  public URLs. A store call is a method on a table class, and its error is a boolean
  parameter.
- React and Next.js are not modelled: hooks, effects, loading flags, routing, `window.print`
  and rendering. A redirect is an outcome value.
- The row order from `order('tanggal_permohonan')` and `order('created_at')` is not
  modelled. Lists keep the table's order.
- `fetchKadis`, `fetchUserName` and the profile joins in the detail query are not modelled.
  They only feed display names.
- The realtime subscription of the recap page is not modelled, and neither is concurrency
  between users.
- Calendar, time zone and locale details are not modelled. Dates are whole days. The due date
  is "+30 days". The month of a payment date is a function parameter. `Intl.NumberFormat` and
  `toLocaleDateString` are left out.
- Floating point is not modelled. The recap percentages and the 1.1 scale use exact reals.
- `Number(item.jumlah) || 0` is modelled for integer or null amounts only.
- VerifyPage.WithId: the match of the `id` parameter is exact text equality with the id. The
  database's integer cast, which also accepts forms such as "+7" or " 7", is not modelled.
- Case folding is ASCII `toLowerCase` only.
- JsString.ParseInt reads a decimal or 0x-hexadecimal integer exactly. It does not lose
  precision above 2^53 as JavaScript numbers do.
- Malformed UTF-8 decodes one replacement character per bad byte. This is weaker than the
  maximal-subpart rule, and it only matters for input the encoder never produces.
- `routes[data.role]` is modelled for string roles only. Prototype keys such as "toString"
  are not modelled.
- Storage file names (`nip-timestamp.ext`) and the upload itself are not modelled. The
  uploaded file's URL is a parameter.
- The two API routes (create user, update password) are not modelled. Their results are
  parameters: the response status and error, and whether the password change fails. A
  non-JSON password response is one more way for it to fail.
- The account detail page's guard for a missing user id in the address is not modelled. An
  update sent with a null id changes no row; whether the store reports an error for it is left
  to the failure parameter.
- Payment marking is not modelled. No page in the model sets the payment status or the
  payment date.

Three places where the code, which this model follows, differs from a natural reading of the
application's description:

- The spelling of 0 is " ", not "". So the amount field shows " rupiah".
- A number collision on create regenerates the number and stops. There is no automatic
  retry.
- A revision request keeps the due date and the verification link.

Two observations:

- The revision page never checks that a certificate is unissued (StaffRevisi.ResubmitIssuedBreaks).
  Resubmitting an issued certificate through its address leaves a row that is unissued but
  still carries an approver and an issue date. The dashboard links only unissued rows there
  (StaffDashboard.FixLinkGuardsResubmit).
- A row whose status is null is on neither dashboard tab, yet its detail page offers approval
  and revision (KadisDashboard.PendingTabOffersActions).
