# Swarnim Jewels storefront — a verified model

This project models the logic of the Swarnim Jewels storefront in Dafny. It has three parts.

- **The Apps Script back end** (`apps-script-WITH-USERS.js`). The spreadsheet tabs are ordered
  tables of rows. `doPost` parses the request, trims the action name, and dispatches to one of 19
  handlers. `doGet` lists the catalogue.
- **The local shopping cart** (`shopping-cart.js`). It is a list of cart lines kept as JSON text
  under the `swarnimCart` key of `localStorage`.
- **The client account layer** (`user-system.js`). This part covers:
  - the two storage tiers (durable `localStorage`, ephemeral `sessionStorage`);
  - register, login, logout, profile and password flows, which talk to the back end through `api`;
  - the login-time cart merge (`syncCart`) and `pushCart`;
  - the wishlist;
  - `safeRedirect` and the HTML escaper `esc`.

How JavaScript is modelled:

- **Values:** one datatype `Js.Json` (undefined, null, booleans, integer numbers, NaN, strings,
  arrays, objects with ordered fields). A property read returns the last field with that key.
- **JSON text:** `JsonText.Encode` / `JsonText.Parse` model `JSON.stringify` / `JSON.parse`, and are
  proved to round-trip. The model uses JSON text wherever the program does:
  - in the storage tiers;
  - in the Users sheet's cart and address cells;
  - in the 45000-unit cart size limit;
  - on the wire between page and server.
- **Exceptions:** a JavaScript exception in the back end is the reply `Threw`. In the browser it is
  the outcome `Items.Threw`, for example a `.findIndex` on a cart that is not an array, or a callback
  reading `.id` of `null`.

Module layout:

- `Js`, `JsonText`: JavaScript values, conversions, and JSON text.
- `Sheet`: the row types of each tab, the tables, and first-match scans.
- `Handlers`: every handler as a function from (tables, payload) to (reply, tables), plus
  `Dispatch`, `Post` and `Catalogue`.
- `AppsScript`: the class `Spreadsheet`. Its fields are the tabs, and its methods scan rows in loops
  and update the tabs in place. Each method is proved equal to its `Handlers` function.
- `ServerLaws`: properties that relate several handlers.
- `Storage`: storage tiers, `store()`, and the getters.
- `Items`: `findIndex` with a callback that may throw.
- `ShoppingCart`, `CartSync` (the merge), `Wishlist`, `Markup` (`esc`, `safeRedirect`).
- `UserSystem`: `api`, the account flows, and `syncCart`.

## Model

| member | source | states |
|---|---|---|
| Sheet.FirstMatch | apps-script-WITH-USERS.js:242-249 | the first index at or after `from` whose row passes the test, or -1 exactly when no row there passes |
| Sheet.Scan | apps-script-WITH-USERS.js:245-248 | the `for` loop with early return finds exactly `FirstMatch` |
| Sheet.ToCell | apps-script-WITH-USERS.js:122 | what `appendRow` stores for a value: scalars unchanged, null/undefined as an empty cell, arrays and objects as their string form |
| Sheet.Without | apps-script-WITH-USERS.js:144 | `deleteRow` removes exactly row i and keeps the others in order |
| Handlers.Fail | apps-script-WITH-USERS.js:86 | the failure envelope: two fields, `success` first and false |
| Handlers.Ok | apps-script-WITH-USERS.js:123 | the success envelope: `success` first and true |
| Handlers.ProductIndex | apps-script-WITH-USERS.js:127-135 | skips the header, returns the first product row whose `String(id)` matches, -1 exactly when none does |
| Handlers.AddProduct | apps-script-WITH-USERS.js:121-124 | appends exactly one 8-column row and succeeds |
| Handlers.UpdateProduct | apps-script-WITH-USERS.js:126-137 | not found leaves the tables unchanged with 'Product not found.'; otherwise overwrites all 8 columns of the matched row only |
| Handlers.DeleteProduct | apps-script-WITH-USERS.js:139-147 | not found changes nothing; otherwise removes exactly the matched row |
| Handlers.AddCategory | apps-script-WITH-USERS.js:152-157 | appends one category row, creating the tab when missing |
| Handlers.CategoryIndex | apps-script-WITH-USERS.js:162-165 | first row whose trimmed name equals the trimmed query, -1 exactly when none |
| Handlers.DeleteCategory | apps-script-WITH-USERS.js:159-167 | missing tab gives 'Sheet not found.'; throws on an empty tab or non-string category; otherwise removes the first match or reports 'Category not found.' |
| Handlers.AddBanner | apps-script-WITH-USERS.js:169-174 | appends one banner row whose active flag is `d.active !== false` |
| Handlers.BannerIndex | apps-script-WITH-USERS.js:179-182 | first banner row with matching `String(id)` (no header skipped), -1 exactly when none |
| Handlers.DeleteBanner | apps-script-WITH-USERS.js:176-184 | missing tab gives 'Sheet not found.'; an empty tab throws; otherwise removes the first match or reports 'Banner not found.' |
| Handlers.DateParts | apps-script-WITH-USERS.js:209-211 | a result exactly for text of four digits, a dash, two digits, a dash and two digits; the result is the three digit groups read as decimal numbers |
| Handlers.EndOfDay | apps-script-WITH-USERS.js:211 | `new Date(y, m - 1, d, 23, 59, 59)`: that day at 23:59:59.000, with a year from 0 to 99 read as 1900 to 1999 |
| Handlers.Expired | apps-script-WITH-USERS.js:208-213 | an empty expiry, or one that is not `YYYY-MM-DD`, never expires the coupon |
| Handlers.CouponIndex | apps-script-WITH-USERS.js:192-193 | first coupon row whose upper-cased trimmed code equals the code, -1 exactly when none |
| Handlers.CouponVerdict | apps-script-WITH-USERS.js:192-224 | unknown code gives 'Invalid coupon code.'; a found inactive row gives 'This coupon is inactive.' before the expiry is looked at; an active row past 23:59:59 of its expiry day gives 'This coupon has expired.'; success exactly when found, active and not expired, with that row's offer |
| Handlers.ValidateCoupon | apps-script-WITH-USERS.js:186-225 | checks in order: no tab, empty code ('Coupon code is required.'), then the verdict; a non-string code throws |
| Handlers.UserIndex | apps-script-WITH-USERS.js:242-249 | `_userRow`: skips the header, first row whose `String(userId)` matches, -1 exactly when none (so -1 with only a header) |
| Handlers.EmailTaken | apps-script-WITH-USERS.js:265-270 | true exactly when some data row's lower-cased email equals the email |
| Handlers.NewUserRow | apps-script-WITH-USERS.js:272-273 | the new row: id `'U'+stamp`, trimmed name, normalised email, `'[]'` cart and addresses |
| Handlers.RegisterUser | apps-script-WITH-USERS.js:259-275 | a throw when the email is not a string; 'Missing required fields.' when email, hash or name is falsy; 'An account with this email already exists.' when a data row has the email; a throw for a truthy non-string name; success exactly when none of these, appending exactly one row and returning its `userId`; failures write nothing |
| Handlers.LoginIndex | apps-script-WITH-USERS.js:286-296 | first data row matching email and hash together, -1 exactly when none |
| Handlers.LoginUser | apps-script-WITH-USERS.js:280-298 | the first row matching email and hash gives the user record; no match or only a header gives 'Incorrect email or password.' |
| Handlers.UpdatedProfile | apps-script-WITH-USERS.js:308-314 | partial update: only name and phone change; a blank name keeps the old one; an absent phone keeps the old one |
| Handlers.UpdateUser | apps-script-WITH-USERS.js:303-316 | unknown user gives 'User not found.' and writes nothing; success rewrites only that user's row |
| Handlers.ChangePassword | apps-script-WITH-USERS.js:321-329 | succeeds exactly when the user exists and the stored hash equals `currentHash`; only then is the hash replaced |
| Handlers.ParseCell | apps-script-WITH-USERS.js:338-339 | an empty cell or unparseable text reads as `[]` |
| Handlers.GetCart | apps-script-WITH-USERS.js:334-341 | always succeeds; unknown user gets `[]`, otherwise the parsed cart cell |
| Handlers.CartText | apps-script-WITH-USERS.js:347 | a non-array cart is saved as `[]` |
| Handlers.SaveCart | apps-script-WITH-USERS.js:343-352 | unknown user gives 'User not found.'; succeeds exactly when the JSON text is at most 45000 UTF-16 units; only then the cart cell is written |
| Handlers.Concat | apps-script-WITH-USERS.js:403 | `existing.concat([address])` on an array; throws on anything but an array or string |
| Handlers.SaveAddress | apps-script-WITH-USERS.js:398-406 | success appends exactly one address to the stored list and writes it back |
| Handlers.ReplaceAddresses | apps-script-WITH-USERS.js:408-415 | a known user always succeeds and the list becomes the given array, or `[]` |
| Handlers.GetAddresses | apps-script-WITH-USERS.js:417-423 | always succeeds; unknown user gets `[]` |
| Handlers.OrderLines | apps-script-WITH-USERS.js:374 | one `name xqty` line per item; throws exactly when some item throws |
| Handlers.OrderItemsText | apps-script-WITH-USERS.js:373-375 | an array of items gives its lines joined with ", ", and throws exactly when some item is null or undefined; anything else becomes its string form |
| Handlers.SaveOrder | apps-script-WITH-USERS.js:368-379 | appends exactly one row, status 'Pending', user id defaulting to 'GUEST', returning the order id |
| Handlers.Reverse | apps-script-WITH-USERS.js:391 | element i of the result is element n-1-i of the input |
| Handlers.GetOrders | apps-script-WITH-USERS.js:381-393 | always succeeds; with only a header the list is empty |
| Handlers.Pick | apps-script-WITH-USERS.js:385-390 | lists at most one entry per row; its body, the view of each row that passes the test, in row order, is the definition |
| Handlers.Lookup | apps-script-WITH-USERS.js:88-108 | an action found names exactly that handler |
| Handlers.Post | apps-script-WITH-USERS.js:83-111 | unparseable body gives 'Invalid request body.'; an unknown trimmed action gives 'Unknown action: '+action; both leave the tables unchanged; otherwise the named handler runs |
| Handlers.Dispatch | apps-script-WITH-USERS.js:90-108 | runs the handler the action names; `validateCoupon`, `loginUser`, `getCart`, `getAddresses` and `getOrders` leave the tables as they were |
| Handlers.Catalogue | apps-script-WITH-USERS.js:26-80 | `doGet` replies with exactly the four lists products, categories, banners and coupons, in that order; a Products tab holding at most its header lists no products |
| ServerLaws.FirstMatchAgrees | apps-script-WITH-USERS.js:245-248 | two scans whose tests agree row by row stop at the same row |
| ServerLaws.SameUserIds | apps-script-WITH-USERS.js:242-249 | rewriting user rows without touching ids keeps every `_userRow` answer |
| ServerLaws.PickSnoc | apps-script-WITH-USERS.js:385-390 | the filter of a row appended at the end extends the result by at most that row |
| ServerLaws.PickMembers | apps-script-WITH-USERS.js:385-390 | a record is listed exactly when some kept row yields it |
| ServerLaws.PickAll | apps-script-WITH-USERS.js:385-390 | when every row passes, the list holds one view per row, in row order |
| ServerLaws.PickNone | apps-script-WITH-USERS.js:385-390 | when no row passes, the list is empty |
| ServerLaws.ReverseSnoc | apps-script-WITH-USERS.js:391 | reversing a list with a row appended puts that row first |
| ServerLaws.LookupName | apps-script-WITH-USERS.js:90-108 | every one of the 19 action names dispatches to its own handler |
| ServerLaws.UnknownAction | apps-script-WITH-USERS.js:110 | an action is unknown exactly when it is none of the 19 names |
| ServerLaws.FailuresWriteNothing | apps-script-WITH-USERS.js:90-108 | every handler reply that is not a success leaves all tables unchanged |
| ServerLaws.FailedPostsWriteNothing | apps-script-WITH-USERS.js:83-111 | a request that does not succeed leaves all tables unchanged |
| ServerLaws.NormalEmailIsLower | apps-script-WITH-USERS.js:260 | a normalised email is its own lower case, so the stored row matches it again |
| ServerLaws.LoginPayloadFields | apps-script-WITH-USERS.js:281 | the login payload carries the email and hash it was built from |
| ServerLaws.AppendedRowMatchesFirst | apps-script-WITH-USERS.js:286-288 | a row appended below rows that lack its email is the first login match |
| ServerLaws.RegisterThenLogin | apps-script-WITH-USERS.js:259-298 | after a successful registration, logging in with the same email and hash returns the new account |
| ServerLaws.ParseCellOfEncoded | apps-script-WITH-USERS.js:338-339 | a cell written with `JSON.stringify` reads back as the value |
| ServerLaws.SaveCartThenGetCart | apps-script-WITH-USERS.js:334-352 | after a successful `saveCart`, `getCart` returns the saved array (or `[]`) |
| ServerLaws.SaveAddressThenGetAddresses | apps-script-WITH-USERS.js:398-423 | after `saveAddress`, `getAddresses` returns the old list plus the new address |
| ServerLaws.ReplaceThenGetAddresses | apps-script-WITH-USERS.js:408-423 | after `replaceAddresses`, `getAddresses` returns the given array (or `[]`) |
| ServerLaws.ReverseMembers | apps-script-WITH-USERS.js:391 | reversing keeps exactly the same elements |
| ServerLaws.OrdersOfMembers | apps-script-WITH-USERS.js:385-390 | an order is listed exactly when some row of that user yields it |
| ServerLaws.UserOrdersMembers | apps-script-WITH-USERS.js:381-393 | `getOrders` lists exactly the data rows of that user |
| ServerLaws.AppendedOrderFirst | apps-script-WITH-USERS.js:385-391 | an order row appended for a user comes first in that user's newest-first list, ahead of the earlier ones in their order |
| ServerLaws.SaveOrderThenGetOrders | apps-script-WITH-USERS.js:368-393 | the order just saved comes first in that user's list (newest first), followed by the earlier ones |
| ServerLaws.CouponEndOfDay | apps-script-WITH-USERS.js:208-215 | a dated active coupon is valid at 23:59:59 of its expiry day and expired one millisecond later |
| ServerLaws.ExpiryBoundary | apps-script-WITH-USERS.js:208-213 | a `YYYY-MM-DD` expiry with a year from 100 on is not yet past at 23:59:59.000 of its day and is past one millisecond later |
| ServerLaws.VerdictActive | apps-script-WITH-USERS.js:193-224 | for an active coupon the verdict is 'This coupon has expired.' exactly when its expiry is past, and its offer otherwise |
| ServerLaws.UndatedNeverExpires | apps-script-WITH-USERS.js:208-221 | an active coupon without a `yyyy-mm-dd` expiry is always accepted |
| ServerLaws.ListedCoupons | apps-script-WITH-USERS.js:58-77 | `doGet` lists a coupon exactly when its code is truthy and it is active |
| ServerLaws.ListedBanners | apps-script-WITH-USERS.js:49-56 | `doGet` lists a banner exactly when its id is truthy |
| AppsScript.Spreadsheet.constructor | apps-script-WITH-USERS.js:4-13 | a spreadsheet holding the given tabs |
| AppsScript.Spreadsheet.AddProduct | apps-script-WITH-USERS.js:121-124 | the `appendRow` leaves the tabs as `Handlers.AddProduct` says |
| AppsScript.Spreadsheet.UpdateProduct | apps-script-WITH-USERS.js:126-137 | the scan-and-`setValues` loop yields the reply and tabs of `Handlers.UpdateProduct` |
| AppsScript.Spreadsheet.DeleteProduct | apps-script-WITH-USERS.js:139-147 | the scan-and-`deleteRow` loop matches `Handlers.DeleteProduct` |
| AppsScript.Spreadsheet.AddCategory | apps-script-WITH-USERS.js:152-157 | matches `Handlers.AddCategory` |
| AppsScript.DeleteFromCategories | apps-script-WITH-USERS.js:159-167 | the reply and the Categories rows `deleteCategory` leaves, with every other table untouched, are those of `Handlers.DeleteCategory` |
| AppsScript.Spreadsheet.DeleteCategory | apps-script-WITH-USERS.js:159-167 | matches `Handlers.DeleteCategory` |
| AppsScript.Spreadsheet.AddBanner | apps-script-WITH-USERS.js:169-174 | matches `Handlers.AddBanner` |
| AppsScript.Spreadsheet.DeleteBanner | apps-script-WITH-USERS.js:176-184 | matches `Handlers.DeleteBanner` |
| AppsScript.Spreadsheet.ValidateCoupon | apps-script-WITH-USERS.js:186-225 | the scan loop gives the reply of `Handlers.ValidateCoupon` and writes nothing |
| AppsScript.Spreadsheet.FindUser | apps-script-WITH-USERS.js:242-249 | the `_userRow` loop finds exactly `Handlers.UserIndex` |
| AppsScript.Spreadsheet.FindLogin | apps-script-WITH-USERS.js:286-296 | the login loop finds exactly `Handlers.LoginIndex` |
| AppsScript.EmailInUse | apps-script-WITH-USERS.js:265-270 | the uniqueness loop answers exactly `Handlers.EmailTaken` |
| AppsScript.Register | apps-script-WITH-USERS.js:259-275 | the reply and the Users rows `registerUser` leaves, with every other table untouched, are those of `Handlers.RegisterUser` |
| AppsScript.Spreadsheet.RegisterUser | apps-script-WITH-USERS.js:259-275 | matches `Handlers.RegisterUser` |
| AppsScript.Spreadsheet.LoginUser | apps-script-WITH-USERS.js:280-298 | matches `Handlers.LoginUser` and writes nothing |
| AppsScript.Reprofile | apps-script-WITH-USERS.js:303-316 | the row `updateUser` writes, or the `.trim()` throw, is `Handlers.UpdatedProfile` |
| AppsScript.Spreadsheet.UpdateUser | apps-script-WITH-USERS.js:303-316 | matches `Handlers.UpdateUser` |
| AppsScript.Spreadsheet.ChangePassword | apps-script-WITH-USERS.js:321-329 | matches `Handlers.ChangePassword` |
| AppsScript.Spreadsheet.GetCart | apps-script-WITH-USERS.js:334-341 | matches `Handlers.GetCart` and writes nothing |
| AppsScript.Spreadsheet.SaveCart | apps-script-WITH-USERS.js:343-352 | matches `Handlers.SaveCart` |
| AppsScript.Spreadsheet.SaveAddress | apps-script-WITH-USERS.js:398-406 | matches `Handlers.SaveAddress` |
| AppsScript.Spreadsheet.ReplaceAddresses | apps-script-WITH-USERS.js:408-415 | matches `Handlers.ReplaceAddresses` |
| AppsScript.Spreadsheet.GetAddresses | apps-script-WITH-USERS.js:417-423 | matches `Handlers.GetAddresses` and writes nothing |
| AppsScript.Spreadsheet.SaveOrder | apps-script-WITH-USERS.js:368-379 | matches `Handlers.SaveOrder` |
| AppsScript.Spreadsheet.GetOrders | apps-script-WITH-USERS.js:381-393 | the push loop and in-place reverse give `Handlers.GetOrders` |
| AppsScript.Spreadsheet.Run | apps-script-WITH-USERS.js:90-108 | running a named action matches `Handlers.Dispatch` |
| AppsScript.Spreadsheet.DoPost | apps-script-WITH-USERS.js:83-111 | the whole request matches `Handlers.Post` |
| AppsScript.Spreadsheet.DoGet | apps-script-WITH-USERS.js:26-80 | the catalogue matches `Handlers.Catalogue` and writes nothing |
| AppsScript.DeleteNamed | apps-script-WITH-USERS.js:162-166 | finds a category exactly when `CategoryIndex` does, and then removes exactly that row |
| AppsScript.Collect | apps-script-WITH-USERS.js:385-390 | the `forEach` push loop collects exactly the filtered records |
| AppsScript.ReverseInPlace | apps-script-WITH-USERS.js:391 | the array afterwards is the reverse of the array before |
| JsonText.RoundTrip | user-system.js:16-19 | text written with `JSON.stringify` parses back to the value's JSON form |
| JsonText.LowHalf | apps-script-WITH-USERS.js:85 | a `\uDC00`-`\uDFFF` escape after a high surrogate joins it into one character from U+10000 to U+10FFFF, taking six characters of the text |
| JsonText.SurrogatePairEscape | apps-script-WITH-USERS.js:85 | the escape pair `\ud83d\ude00` reads as the one character U+1F600 |
| JsonText.Encode | apps-script-WITH-USERS.js:347 | `JSON.stringify` text is never empty and starts the way a JSON value starts |
| JsonText.ParseValue | apps-script-WITH-USERS.js:85 | a value read from the front of the text always consumes some of it |
| Js.Or | apps-script-WITH-USERS.js:88 | the logical or gives its left side when that is truthy and its right side otherwise |
| Js.Trim | apps-script-WITH-USERS.js:88 | the result of `trim()` neither starts nor ends with white space |
| Js.TrimOfTrimmed | apps-script-WITH-USERS.js:88 | `trim()` leaves text that neither starts nor ends with white space as it is |
| Js.Lower | apps-script-WITH-USERS.js:260 | `toLowerCase()` keeps the length and lowers each character on its own |
| Js.Upper | apps-script-WITH-USERS.js:189 | `toUpperCase()` keeps the length and raises each character on its own |
| Js.Utf16Length | apps-script-WITH-USERS.js:348 | `length` counts between one and two units per character |
| Js.ToNumber | apps-script-WITH-USERS.js:74 | `Number(v)` is a number or NaN |
| Js.ParseIntOfNum | shopping-cart.js:158 | `parseInt` reads back every integer that `String` prints |
| Js.Add | apps-script-WITH-USERS.js:110 | `+` adds two numbers, and appends the other side's text to a string |
| Storage.Stored | user-system.js:18-19 | stored text is never empty, and is "undefined" exactly for `undefined` |
| Storage.Read | user-system.js:16-17 | a missing key or empty text reads as null |
| Storage.UndefinedTextIsNotJson | user-system.js:16 | the text "undefined" does not parse, so it reads back as null |
| Storage.ReadStored | user-system.js:16-19 | what `lsSet`/`ssSet` writes under a key reads back as its JSON form |
| Storage.Store | user-system.js:23-27 | names the durable tier exactly when it holds a truthy token and user, and no tier exactly when neither tier holds both |
| Storage.GetUser | user-system.js:129 | the durable tier's user when truthy, else the ephemeral tier's when truthy, else null |
| Storage.GetToken | user-system.js:130 | the durable tier's token when truthy, else the ephemeral tier's when truthy, else null |
| Storage.IsLoggedIn | user-system.js:131 | true exactly when some tier holds a token and some tier, perhaps the other one, holds a user |
| Storage.StoreMeansLoggedIn | user-system.js:23-27 | a tier named by `store()` means logged in, and `getUser` then reads that tier's user |
| Storage.LoggedInWithoutStore | user-system.js:23-27 | a token in one tier and a user in the other count as logged in, yet `store()` names no tier |
| Storage.Browser.constructor | user-system.js:16-20 | a browser with the given tiers |
| Storage.Browser.LsSet | user-system.js:18 | writes one key of the durable tier only; the key then reads back as the value |
| Storage.Browser.SsSet | user-system.js:19 | writes one key of the ephemeral tier only; the key then reads back as the value |
| Storage.Browser.Del | user-system.js:20 | removes the key from both tiers, so it reads as null in each |
| Items.FindIndex | shopping-cart.js:92 | the first index whose element passes the callback, with every element before it readable; -1 exactly when every element is readable and fails; a throw exactly when an unreadable element comes before any passing one |
| Items.Find | shopping-cart.js:92 | the search loop returns exactly `FindIndex` |
| Items.Iterate | user-system.js:170 | `for…of` walks an array's elements, a string's characters, and throws on anything else |
| ShoppingCart.Load | shopping-cart.js:34-46 | a missing key or unparseable text gives `[]` |
| ShoppingCart.LoadSaved | shopping-cart.js:34-65 | a cart saved with `saveCart` loads back as its JSON form |
| ShoppingCart.Checked | shopping-cart.js:72-87 | rejected exactly when the id is falsy or the price is falsy or not positive; an accepted product keeps its id and price and has a truthy name |
| ShoppingCart.Named | shopping-cart.js:78-81 | a falsy name becomes 'Product' and a truthy name leaves the product as it was; id and price unchanged either way |
| ShoppingCart.ParseFloat | shopping-cart.js:103 | the price is a number or NaN |
| ShoppingCart.IntOrNaN | shopping-cart.js:144 | a number exactly when `parseInt` reads a leading integer, and then that integer; NaN otherwise |
| ShoppingCart.LineFields | shopping-cart.js:100-107 | a new line has id the given string and quantity 1 |
| ShoppingCart.NewItemFields | shopping-cart.js:100-107 | the new line's id is `String(product.id)` and its quantity 1 |
| ShoppingCart.AddedItems | shopping-cart.js:89-110 | throws exactly when the `===` search throws; no match appends the new line; a match at index i, whose id is `===` the product's, bumps line i's quantity only |
| ShoppingCart.Count | shopping-cart.js:156-161 | the count is defined exactly when every line is readable, and is then the sum of `parseInt(quantity) \|\| 1` over the lines |
| ShoppingCart.CartCount | shopping-cart.js:156-161 | `getCount` on the stored cart returns exactly when it is an array of readable lines, and then gives their quantity total |
| ShoppingCart.QtyOfCounted | shopping-cart.js:158 | a line's `parseInt(quantity) \|\| 1` is its quantity, or 1 when absent |
| ShoppingCart.FalsyCountsOne | shopping-cart.js:158 | a zero quantity and one `parseInt` cannot read both count as one |
| ShoppingCart.SumAppend | shopping-cart.js:158 | appending a line adds its quantity to the count |
| ShoppingCart.SumUpdate | shopping-cart.js:158 | replacing one line changes the count by the quantity difference |
| ShoppingCart.AddCountsOne | shopping-cart.js:68-115 | adding a valid product to a well-formed cart raises the count by exactly one |
| ShoppingCart.BumpCountsOne | shopping-cart.js:92-97 | a product the search finds at a counted line bumps that line only and raises the count by one |
| ShoppingCart.BumpedCountsOne | shopping-cart.js:96 | the bump raises a line's quantity by one |
| ShoppingCart.NewItemCountsOne | shopping-cart.js:105 | a new line counts one |
| ShoppingCart.NumericIdAddsAgain | shopping-cart.js:92-101 | a numeric id never matches the string ids stored, so it is appended again |
| ShoppingCart.StringIdAddsOnce | shopping-cart.js:92-101 | adding a string-id product twice gives one line with quantity 2 |
| ShoppingCart.AddsOnce | shopping-cart.js:92-97 | a line matching by `===` is bumped from 1 to 2 |
| ShoppingCart.FoundFirst | shopping-cart.js:92 | a one-line cart whose id matches is found at 0 |
| ShoppingCart.Kept | shopping-cart.js:122 | the filter never lengthens the cart |
| ShoppingCart.KeptMembers | shopping-cart.js:122 | a line survives exactly when it was in the cart and its id is not `String(productId)` |
| ShoppingCart.KeptAppend | shopping-cart.js:122 | the filter distributes over concatenation, so it keeps the remaining lines in order and with their multiplicity |
| ShoppingCart.KeptNoMatch | shopping-cart.js:122 | a cart with no line for the id is kept unchanged |
| ShoppingCart.RemovedIsGone | shopping-cart.js:118-131 | after removal no line has the id |
| ShoppingCart.Removing | shopping-cart.js:120-122 | the filter throws exactly when some line is unreadable |
| ShoppingCart.Requantified | shopping-cart.js:134-153 | the search's throw is passed on; not found gives false; a quantity at or below 0 splices the found line out; otherwise only that line's quantity changes, to `parseInt(quantity)` or NaN |
| ShoppingCart.SetLine | shopping-cart.js:139-146 | a quantity at or below 0 removes line i and keeps the others in order; otherwise only line i's quantity changes, to `parseInt(quantity)` or NaN |
| ShoppingCart.SetQuantityCount | shopping-cart.js:144-158 | setting quantity n changes the count by n minus the old quantity |
| ShoppingCart.SaveCart | shopping-cart.js:49-65 | writes the cart text under `swarnimCart` only; reports true exactly when the badge update that follows can count the stored cart |
| ShoppingCart.UncountableSaves | shopping-cart.js:52-63 | a saved `null` and a saved `[null]` cannot be counted, so `saveCart` stores them and reports false |
| ShoppingCart.AddItem | shopping-cart.js:68-115 | invalid products change nothing and give false; otherwise the stored cart becomes `AddedItems` of the loaded one |
| ShoppingCart.RemoveItem | shopping-cart.js:118-131 | the stored cart becomes the filtered cart |
| ShoppingCart.Requantify | shopping-cart.js:134-153 | the search and splice of `updateQuantity` compute exactly `Requantified` |
| ShoppingCart.UpdateQuantity | shopping-cart.js:134-153 | the stored cart becomes `Requantified`; not found writes nothing and gives false |
| ShoppingCart.Clear | shopping-cart.js:174-179 | removes the cart key only; the cart then loads as `[]` and counts 0 |
| CartSync.MergeStep | user-system.js:171-173 | one turn adds at most one line |
| CartSync.MergeAll | user-system.js:168-174 | the merge is at least as long as the server list and adds at most one line per local line; that the server lines keep their ids and order is CartSync.ServerLinesFirst |
| CartSync.CombinedCounts | user-system.js:172 | combining two lines adds their quantities |
| CartSync.OrOne | user-system.js:172 | `q \|\| 1` for an absent or positive quantity |
| CartSync.CombinedIs | user-system.js:172 | the combined line is the server line with the summed quantity |
| CartSync.StepConserves | user-system.js:171-173 | one turn adds the local line's quantity to the total |
| CartSync.StepCombines | user-system.js:172 | combining into line j adds the local quantity to the total |
| CartSync.Conservation | user-system.js:164-174 | on well-formed lines the merge never throws, and its count is the server count plus the local count |
| CartSync.SumOfLines | user-system.js:172 | each well-formed line counts at least one |
| CartSync.MergeWithItselfDoubles | user-system.js:170-173 | merging a cart with itself doubles its count, so the merge is not idempotent |
| CartSync.StepKeys | user-system.js:171-173 | one turn keeps existing ids in place and leaves the local id present |
| CartSync.StepOutcome | user-system.js:171-173 | on readable lines one merge turn returns, and either appends the local line or combines it into exactly one merged line |
| CartSync.ServerLinesFirst | user-system.js:168-174 | the merged list starts with the server's lines, in order |
| CartSync.LocalKeysPresent | user-system.js:170-174 | every local id is in the merged list |
| CartSync.NoOtherKeys | user-system.js:170-174 | every merged id is a server id or a local id |
| CartSync.MergeKeepsDistinct | user-system.js:170-174 | distinct server ids stay distinct after the merge |
| Wishlist.GetWishlist | user-system.js:220 | a truthy stored value is returned as it is; a falsy or missing one gives `[]` |
| Wishlist.IsWishlisted | user-system.js:221 | a stored non-array throws; on an array it throws exactly when the `String(id)` search meets an unreadable entry before a match, and otherwise is true exactly when that search finds an entry; on a readable array, true exactly when some entry has the `String(id)` |
| Wishlist.Toggled | user-system.js:222-229 | an empty list gets the product; otherwise an unreadable product throws, a throw of the search is passed on, a match at j is cut out leaving the rest in order, and no match appends the product |
| Wishlist.ToggleTwiceRestores | user-system.js:222-229 | toggling an absent product twice restores the list |
| Wishlist.ToggleFlips | user-system.js:221-229 | with distinct ids, a toggle flips `isWishlisted` and keeps ids distinct |
| Wishlist.SpliceDropsKey | user-system.js:225 | the splice removes that id and keeps the rest distinct |
| Wishlist.Toggle | user-system.js:222-229 | the search and splice of `toggleWishlist` compute exactly `Toggled` |
| Wishlist.ToggleWishlist | user-system.js:222-229 | the stored list becomes `Toggled` of the old one, and nothing else changes |
| Markup.ReplaceAbsent | user-system.js:234-235 | replacing a character absent from the text changes nothing |
| Markup.Esc | user-system.js:232-236 | null and undefined escape to the empty string |
| Markup.ReplaceAppend | user-system.js:234-235 | a global replace distributes over concatenation |
| Markup.ChainAppend | user-system.js:234-235 | the five replaces distribute over concatenation |
| Markup.ReplaceOne | user-system.js:234 | a lone character is replaced by its entity |
| Markup.LaterKeep | user-system.js:234-235 | the later replaces leave text without their characters alone |
| Markup.ChainOfChar | user-system.js:234-235 | on one character the chain is that character's escape |
| Markup.ChainOfLt | user-system.js:234 | `<` becomes `&lt;` and is not escaped again |
| Markup.ChainOfGt | user-system.js:234 | `>` becomes `&gt;` |
| Markup.ChainOfQuot | user-system.js:235 | `"` becomes `&quot;` |
| Markup.ChainOfApos | user-system.js:235 | `'` becomes `&#39;` |
| Markup.ChainIsEscapeEach | user-system.js:233-235 | because `&` goes first, the chain equals escaping each character once |
| Markup.EscapeEachIsSafe | user-system.js:233-235 | the escaped text holds none of `<`, `>`, `"`, `'` |
| Markup.EscIsSafe | user-system.js:232-236 | `esc` output holds none of `<`, `>`, `"`, `'` |
| Markup.SafeRedirect | user-system.js:58-61 | returns the parameter or the fallback, the parameter exactly when it is non-empty and starts with neither 'http' nor '//' |
| Markup.StripLeading | user-system.js:58-61 | stripping leading control characters never lengthens the text |
| Markup.AsWrittenLetsOut | user-system.js:58-61 | three parameters the guard accepts that run script or leave the site |
| Markup.UpperCaseScheme | user-system.js:60 | 'HTTPS://evil.example' passes the guard and leaves the site |
| Markup.SlashBackslash | user-system.js:60 | '/\\evil.example' passes the guard and leaves the site |
| Markup.ScriptLink | user-system.js:60 | 'javascript:alert(1)' passes the guard and runs script in the page |
| Markup.Accepted | user-system.js:60 | a parameter whose first character is not 'h' and second not '/' is accepted |
| Markup.SlashesLeave | user-system.js:60 | two leading slashes of either kind leave the site |
| Markup.SchemeLeaves | user-system.js:60 | a leading URL scheme runs script or leaves the site |
| Markup.SafeRedirectFixed | user-system.js:58-61 | the corrected guard returns the parameter or the fallback |
| Markup.PlainTextIsClean | user-system.js:58-61 | text without control characters or spaces is left as it is by the cleaning |
| Markup.FixedStaysOnSite | user-system.js:58-61 | with an on-site fallback, the corrected guard never runs script or leaves the site |
| Markup.FixedOnlyNarrows | user-system.js:58-61 | whatever the corrected guard accepts, the original accepts too, unless it starts with 'http' |
| UserSystem.Api | user-system.js:36-49 | posts `{action, ...data}` as JSON text; the page gets the parsed reply, or the network-error envelope when the server throws; the tables change as the server says |
| UserSystem.NormalMembersPlain | user-system.js:42 | dropping undefined fields cannot create an `action` field |
| UserSystem.NameIsTrimmed | apps-script-WITH-USERS.js:88 | every action name survives the server's trim |
| UserSystem.RequestAction | user-system.js:42 | the server reads back the action the request was built with, trimmed |
| UserSystem.CallDispatches | user-system.js:36-49 | a request for a known action, whose payload has no `action` field, reaches that handler with the payload as parsed |
| UserSystem.RegisterError | user-system.js:72-76 | 'Full name is required.', then 'Enter a valid email address.', then 'Password must be at least 6 characters.', each only when the earlier checks pass; no complaint exactly when the name is non-empty, the email matches the pattern, and the password has at least 6 units |
| UserSystem.ValidEmail | user-system.js:73 | an accepted address has at least 5 characters, no space, and exactly one `@`, not first, followed later by a dot that is neither next to it nor last |
| UserSystem.EmailExamples | user-system.js:73 | 'a@b.co' passes; 'a@bco', '@b.co', 'a b@c.d' and 'a@.cd' fail |
| UserSystem.MakeToken | user-system.js:52-54 | the token is the user id's text, an underscore, then the time-and-random part |
| UserSystem.TokenNamesOwner | user-system.js:52-54 | for ids without an underscore, equal tokens come from the same id and the same time-and-random part |
| UserSystem.AcceptedEmailIsNormal | user-system.js:69-73 | an email the form accepts is non-empty and unchanged by the server's lower-case-and-trim |
| UserSystem.Register | user-system.js:67-89 | a complaint writes nothing; otherwise one `registerUser` request, and on success the token and the new user go to the durable tier only |
| UserSystem.Synced | user-system.js:164-180 | a throw in the merge leaves the durable tier unchanged; otherwise the cart key holds the merged list |
| UserSystem.ThrowStays | user-system.js:170-174 | once a turn of the merge throws, the whole merge throws |
| UserSystem.Merge1 | user-system.js:171-173 | one turn of the loop is `MergeStep` |
| UserSystem.MergeLocal | user-system.js:168-174 | the loop computes `MergeAll` |
| UserSystem.SyncCart | user-system.js:164-180 | `getCart`, the merge, then the local write and `saveCart`, exactly as `Synced`; the ephemeral tier is untouched |
| UserSystem.Login | user-system.js:91-113 | missing email or password writes nothing; on success the token and user go to the durable tier only with `rememberMe`, else to the ephemeral tier only, then the cart is synced |
| UserSystem.PairReadsBack | user-system.js:103-107 | a token and user written to one tier read back truthy, whatever the cart key then holds |
| UserSystem.LoginTier | user-system.js:100-109 | after a successful login the visitor is logged in, and `store()` names the durable tier with `rememberMe` |
| UserSystem.PushCart | user-system.js:182-186 | saves the stored cart (or `[]`) for the logged-in user, and sends nothing otherwise |
| UserSystem.Logout | user-system.js:115-126 | pushes the cart first, then removes token and user from both tiers; nobody is logged in afterwards |
| UserSystem.Spread | user-system.js:143 | `{...user, name, phone}` is an object |
| UserSystem.SpreadFields | user-system.js:143 | the spread sets name and phone and keeps every other field of the user |
| UserSystem.UpdateProfile | user-system.js:134-148 | 'Not logged in.' and 'Name is required.' write nothing; on success the user is written to the tier `store()` names, the durable one when it names none |
| UserSystem.ProfileReadBack | user-system.js:129-144 | the page reads the updated user back, except when a stale durable user shadows an ephemeral session |
| UserSystem.PasswordError | user-system.js:151-157 | 'Not logged in.', then 'Current password is required.', then 'New password must be at least 6 characters.', then 'New password must be different.', each only when the earlier checks pass; no complaint exactly when all four checks pass |
| UserSystem.ChangePassword | user-system.js:150-161 | a complaint sends nothing; otherwise one `changePassword` request carrying only the two hashes |

## Left out

- `fetch` and HTTP status: `api` is modelled as one synchronous request. A non-OK HTTP status (user-system.js:44) is not modelled. A server exception becomes the network-error envelope.
- `sha256` is the parameter `hash`, an arbitrary function from strings to strings.
- Time and randomness are parameters. These include the `_id` suffix and `createdAt`/date stamps (`Env`), the `Date.now()`/`Math.random()` part of `makeToken` (`nonce`), `addedAt`, and the clock that coupon expiry compares against.
- Coupon expiry cells that are JavaScript `Date` objects (apps-script-WITH-USERS.js:66-70, 200-204) are not modelled. Expiry cells are text. Day and month overflow in `new Date(y, m, d)` and time zones are not modelled either.
- Floating point: numbers are integers or NaN, and the integers are unbounded. There is no loss of precision above 2^53, and no exponent form: JavaScript prints numbers from 1e21 up as `1e+21`, so at shopping-cart.js:158 `parseInt` of a quantity 10^21 gives 1, where ShoppingCart.QtyOf gives 10^21.
  - ShoppingCart.ParseFloat reads integer prices only: it is ShoppingCart.IntOrNaN, so a price '12.5' reads as 12 where `parseFloat` gives 12.5.
  - `getTotal` (shopping-cart.js:164-171) is not modelled because it multiplies float prices.
- The Users, Orders and Products tabs are assumed to exist. `_uSheet`/`_oSheet` creating them with a header row, and the fallback to the first sheet for Products, are not modelled.
- Storage exceptions are not modelled: no quota errors, no `localStorage` being unavailable, no `setItem` throwing. The `isLocalStorageAvailable` probe always succeeds.
- UI and events are not modelled: `updateHeader`, the badge writes of `updateCartCount` (its count, which can throw inside `saveCart`, is modelled), `showNotification`, alerts, the `cartUpdated` event, the storage listener, the `setInterval` push, and the navigation in `logout`.
- Js.Lower and Js.Upper map ASCII letters only, while `toLowerCase`/`toUpperCase` map all of Unicode. So the email comparisons (Handlers.NormalEmail, EmailTaken, SameEmail, UserSystem.Register, UserSystem.Login) and the coupon code comparisons (Handlers.CouponCode, CouponIndex) differ from the source for non-ASCII letters: "MÜLLER@x.de" does not log in to "müller@x.de", and "straße" does not become "STRASSE".
- JsonText.Parse refuses a lone surrogate `\u` escape (a high half not followed by a low-half escape, or a low half on its own), which `JSON.parse` reads as a single UTF-16 unit. A Dafny character is a whole Unicode scalar value and cannot hold half a pair.
- JsonText.Parse refuses number text with a fraction or an exponent (`1499.5`, `1e3`), which `JSON.parse` reads. So Handlers.Post answers 'Invalid request body.' to a body holding such a number, and a stored cart, address list or storage value holding one reads as `[]` or null.
- Js.TextToNumber gives NaN for decimal fractions, exponents and hex text ("0.00", "1e3", "0x10"), where `Number` gives 0, 1000 and 16. So ShoppingCart.Checked accepts a price "0.00" that `addItem` rejects.
- Js.LeadingInt does not read the `0x` prefix that `parseInt` reads without a radix: "0x5" reads as 0, not 5, so `updateQuantity(id, "0x5")` removes the line where the source stores 5.
- UserSystem.Login takes `rememberMe` as a boolean. The `rememberMe = true` default and the truthiness test on a non-boolean value (user-system.js:91, 102) are left to the caller.
- ShoppingCart.Checked works on a copy: `addItem` writing `product.name = 'Product'` into the caller's object (shopping-cart.js:80), even when the price is then rejected, is not modelled.
- Sheet.ToCell keeps strings as they are. Sheets turning number-like and date-like strings into numbers or dates on `appendRow`/`setValue` (a phone "09876543210" losing its leading zero) is not modelled.
- Form inputs are strings. The `(x || '')` defaults for non-string inputs and `password.length` on non-strings are not modelled.
- UserSystem.Login: a success reply without a `user` object would throw at `result.user.userId`. Here it gives an undefined id. The server's `loginUser` always sends one.
- UserSystem.Spread: spreading a user that is a string or an array (which `getUser` could return from tampered storage) is modelled as spreading nothing.
- UserSystem.ProfileReadBack is stated for the cases where the read-back holds. The shadowing case it excludes is real behaviour of `getUser`.
- The client wrappers `saveOrder`, `getOrders`, `saveAddress`, `replaceAddresses` and `getAddresses` (user-system.js:189-217) are not modelled. They only forward to `api`, and the server side of each is modelled.
- `swarnim-video-player.js` is not part of this model. It is a DOM widget.
- Async ordering is not modelled beyond the order of requests inside one flow.

Behaviour worth knowing:

- `doGet` lists every active coupon, expired or not.
- The cart size limit counts UTF-16 units of the JSON text, not bytes.
- The login merge is not idempotent: re-merging a cart doubles its quantities (CartSync.MergeWithItselfDoubles).

## Findings

| source | as written | input that shows it | evidently intended | confidence | as-written member | corrected member |
|---|---|---|---|---|---|---|
| user-system.js:58-61 | `safeRedirect` accepts any parameter that starts with neither 'http' nor '//' | `HTTPS://evil.example`, `/\evil.example`, `javascript:alert(1)` each pass the guard and run script or leave the site | only same-site paths are followed, since the comment says the guard prevents open redirects | not executed; high | Markup.AsWrittenLetsOut | Markup.FixedStaysOnSite |
