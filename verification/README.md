# skillverse front end, modelled in Dafny

A model of the client side of the skillverse course marketplace: the Redux
slices (cart, auth, payment, user, courses) and the root reducer that resets
them on logout; the route guards and the route table; the cart page's
checkout flow around the payment widget; and the pure decisions inside the
pages. Those decisions are the course listing's search, filters and
pagination, the quiz-attempt list, the course card and course page buttons,
the enrolled-course page, the instructor's course, lesson and quiz forms with
their ordered validation chains, the profile form, the navigation bar, the
message list and the name-capitalising helper.

Every reducer is a pure function from a state record and an event to the
next state. Every handler is a pure function from the page's state and the
outcomes of its server calls to the next state, the requests sent, the
store actions dispatched, the navigation and the toasts shown. A server or
payment-provider reply is a parameter: `Common.Settled` for a Redux thunk,
`Ui.Response` for a direct HTTP call. JavaScript truthiness of an optional
string is `Common.Truthy` (present and non-empty), and `a || b` on messages
is `Common.MessageOr`. Text is a sequence of characters, with ASCII case
mapping and white space.

Modules follow the source files:
- `Cart`, `Auth`, `Payment`, `UserSlice`, `CourseSlice` and `Store` model the slices and the store.
- `Guards` and `Routes` model the two guards and the route table of `App.jsx`.
- `Checkout` models the cart page.
- `CoursesPage`, `Pagination` and `QuizAttempts` model the listings.
- `CourseCard`, `CourseDetail`, `EnrolledCourse` and `Lessons` model the course pages.
- `CreateCourse`, `CreateLesson`, `ManageLessons` and `QuizForm` model the instructor pages.
- `Profile`, `Navbar`, `Message` and `StringUtils` model the rest.
- `Common`, `Domain` and `Ui` hold the shared records and helpers.

The slice does not keep the authenticated flag in step with the token and the user:
- `updateUser` sets the user and marks the session authenticated even without a token (`Auth.UpdateUserWithoutToken`).
- A failed login clears the authenticated flag but keeps the earlier user and token (`Auth.StaleSessionAfterFailedLogin`).
- So "authenticated exactly when there is a token and a user" does not hold. What does hold is "authenticated implies a user" (`Auth.AuthenticatedHasUser`).

## Model

| member | source | states |
|---|---|---|
| Common.TrimStart | src/pages/instructor/CreateCourse.jsx:72 | what is left is a suffix of the input that starts with a visible character, and everything cut off is white space |
| Common.TrimEnd | src/pages/instructor/CreateCourse.jsx:72 | what is left is a prefix of the input that ends with a visible character, and everything cut off is white space |
| Common.TrimEmptyIffBlank | src/pages/instructor/CreateCourse.jsx:72-77 | the trimmed text is empty exactly when every character is white space |
| Common.Includes | src/pages/Courses.jsx:110-114 | true exactly when the text occurs at some position |
| Common.Split | src/utils/stringUtils.js:9 | a split has at least one part |
| Common.SplitFirst | src/utils/stringUtils.js:9 | the first part holds no separator; the rest of the split is the split of what follows the first separator |
| Common.SplitJoin | src/utils/stringUtils.js:9-11 | splitting parts joined by a separator they do not contain gives the parts back |
| Common.NatToString | src/pages/instructor/ManageLessons.jsx:45-51 | the rendering is a non-empty run of decimal digits with no leading zero |
| Common.NatToStringRoundTrip | src/pages/instructor/ManageLessons.jsx:45-51 | reading the rendered digits back gives the number |
| Cart.FindIndex | src/features/cart/cartSlice.js:21 | -1 exactly when no item carries the id; otherwise the first position that does |
| Cart.Add | src/features/cart/cartSlice.js:12-19 | an id already listed leaves the cart as it was; a new id is appended after the unchanged earlier items and its price, whatever its sign, is added to the total |
| Cart.Remove | src/features/cart/cartSlice.js:20-26 | an unlisted id changes nothing; a listed one drops the item at its first position, keeping the rest in order, and takes that item's price off the total |
| Cart.Clear | src/features/cart/cartSlice.js:27-30 | no items, total 0, and the cart invariant holds |
| Cart.ItemsCount | src/features/cart/cartSlice.js:39 | the count is the number of listed items |
| Cart.SumAppend | src/features/cart/cartSlice.js:16-17 | appending an item adds exactly its price to the sum of prices |
| Cart.SumConcat | src/features/cart/cartSlice.js:3-30 | the sum of prices of two lists joined is the sum of their sums |
| Cart.SumWithout | src/features/cart/cartSlice.js:23-24 | splicing item i out takes exactly its price off the sum |
| Cart.AddValid | src/features/cart/cartSlice.js:12-19 | adding keeps the total equal to the sum of prices and the ids distinct |
| Cart.RemoveValid | src/features/cart/cartSlice.js:20-26 | removing keeps the invariant, and with distinct ids no item with the removed id remains |
| Cart.ReduceValid | src/features/cart/cartSlice.js:11-31 | each of the three reducers keeps the invariant |
| Cart.Reduce | src/features/cart/cartSlice.js:11-31 | the three reducers; `Cart.ReduceValid` states that each keeps the invariant and `Cart.TotalIsSumAfterAnyEvents` that any sequence of them does |
| Cart.TotalIsSumAfterAnyEvents | src/features/cart/cartSlice.js:3-30 | from the initial state, after any sequence of add, remove and clear, the total is the sum of the listed prices and no id appears twice |
| Cart.ReduceAllValid | src/features/cart/cartSlice.js:11-31 | the invariant survives any sequence of events from any state that has it |
| Cart.AddIdempotent | src/features/cart/cartSlice.js:14-15 | adding the same item twice equals adding it once |
| Cart.AddThenRemove | src/features/cart/cartSlice.js:12-26 | removing an item just added to a cart that did not list it restores the cart exactly |
| Cart.RemovePresent | src/features/cart/cartSlice.js:23-24 | under the invariant, removing a listed id shortens the list by one and keeps exactly the items with other ids |
| Cart.CountAfterAdd | src/features/cart/cartSlice.js:14-39 | the count grows by one exactly when the added id is new |
| Auth.PictureUrl | src/features/auth/authSlice.js:4-15 | the server origin, a `/`, then the path with every backslash turned into `/`, so nothing after the origin is a backslash |
| Auth.RewritePicture | src/features/auth/authSlice.js:60-65 | only a non-empty picture is rewritten, to its server address; every other field is kept |
| Auth.LoginThunk | src/features/auth/authSlice.js:6-22 | a successful login passes the token on and the user with the picture rewritten; a failure becomes a rejection carrying the payload's message |
| Auth.LogoutClearsSession | src/features/auth/authSlice.js:54-58 | logout empties user and token and clears the session flag, leaving loading and error as they were |
| Auth.LoginFulfilledAuthenticates | src/features/auth/authSlice.js:79-85 | a successful login installs the rewritten user and the token, sets the flag, and ends loading with no error |
| Auth.LoginRejectedKeepsSession | src/features/auth/authSlice.js:86-90 | a failed login clears the flag and reports the message or "Login failed", leaving user and token untouched |
| Auth.RegisterNeverAuthenticates | src/features/auth/authSlice.js:95-103 | a registration never sets the flag, a user or a token; a failed one clears the flag, with "Registration failed" as fallback |
| Auth.UpdateUserReplacesUser | src/features/auth/authSlice.js:59-68 | the whole user is replaced (picture rewritten), the flag forced on, the token left as it was |
| Auth.RequestStatus | src/features/auth/authSlice.js:75-103 | pending cases start loading with no error; settled cases end loading; the plain reducers leave loading alone |
| Auth.Reduce | src/features/auth/authSlice.js:53-104 | the slice's reducers and thunk cases; `Auth.LogoutClearsSession`, `Auth.LoginFulfilledAuthenticates`, `Auth.LoginRejectedKeepsSession`, `Auth.UpdateUserReplacesUser` and `Auth.RequestStatus` state each case, and `Auth.AuthenticatedHasUser` what every sequence keeps |
| Auth.AuthenticatedHasUser | src/features/auth/authSlice.js:50-105 | after any sequence of actions from a state where the flag implies a user, it still does |
| Auth.UpdateUserWithoutToken | src/features/auth/authSlice.js:59-68 | from the initial state one `updateUser` gives an authenticated session with no token |
| Auth.StaleSessionAfterFailedLogin | src/features/auth/authSlice.js:79-90 | a failed login after a successful one leaves the user and token in an unauthenticated session |
| Store.AppReduce | src/app/store.js:19-26 | each slice reduces the action it declares; every other slice is unchanged by it |
| Store.RootReduce | src/app/store.js:28-36 | on `auth/logout` every slice restarts from its initial state (cart empty with total 0, session flag off, payment key cleared in memory); any other action goes to the combined reducer on the unchanged state |
| Store.Persisted | src/app/store.js:13-17 | what is written to storage keeps the auth, courses, user, cart and categories slices as they are; only payment is left out |
| Store.BlacklistOnlyAffectsPersistence | src/app/store.js:16-33 | two states differing only in their payment slice persist identically, yet logout still resets payment in memory |
| Store.LogoutForgetsHistory | src/app/store.js:29-35 | after logout the store is the same whatever it held before |
| Store.RootKeepsCartValid | src/app/store.js:28-36 | the cart invariant survives every action the store receives, logout included |
| Store.CartValidAfterAnyActions | src/app/store.js:28-36 | the cart invariant holds after any sequence of store actions from a state that has it |
| Store.AuthenticatedHasUserAfterAnyActions | src/app/store.js:28-36 | an authenticated session has a user in every store reachable from a state where that holds |
| Payment.ClearKeepsKey | src/features/payment/paymentSlice.js:45-49 | clearing gives the initial state except that the cached key is kept |
| Payment.KeyEventsFrame | src/features/payment/paymentSlice.js:65-70 | a fetched key changes only the key; a failed fetch changes only the error, with "Failed to get Razorpay key" as fallback |
| Payment.CheckoutEvents | src/features/payment/paymentSlice.js:53-64 | pending starts loading with no error; fulfilled stores the reply's order; rejected ends loading, keeps the order and key, and reports "Checkout failed" as fallback |
| Payment.Reduce | src/features/payment/paymentSlice.js:44-71 | the slice's reducer and thunk cases; `Payment.ClearKeepsKey`, `Payment.KeyEventsFrame` and `Payment.CheckoutEvents` state each case, and `Payment.OnlyKeyFetchChangesKey` which touch the key |
| Payment.OnlyKeyFetchChangesKey | src/features/payment/paymentSlice.js:41-72 | no event other than a fetched key changes the cached key |
| Checkout.CourseIds | src/pages/Cart.jsx:78 | one id per cart item, in cart order |
| Checkout.HandleCheckout | src/pages/Cart.jsx:51-153 | the attempt stops at the first failing step, each stop exactly under its condition: a failed key fetch (only when no key was cached) with the server's message or "Failed to get payment configuration", after the key request alone; a failed script load after the key step, with "Razorpay SDK failed to load", after the key request if any and the script load; a rejected order request after a loaded script, with the rejection's message or "Payment failed"; an order-less reply with "Failed to create order"; and a key missing when the attempt began, although fetched, with "Payment configuration is missing". Once the script loaded the requests are the key request if any, the script load and the order with the cart total and the item ids in order. The widget opens, with the key and the order's amount, currency and id, exactly when a key was cached, the script loaded and an order came back; processing stays on, and no error is shown, only then |
| Checkout.Handler | src/pages/Cart.jsx:96-125 | a truthy payment id empties the cart and goes to `/paymentsuccess?reference=<id>`; without one the cart is kept, "Payment verification failed" is shown and processing ends |
| Checkout.Dismiss | src/pages/Cart.jsx:133-137 | dismissing the widget ends processing, which re-enables the checkout and remove buttons, and changes nothing else |
| Checkout.VerificationIgnored | src/pages/Cart.jsx:104-120 | the handler does the same whether the verification request resolved or threw |
| Checkout.KeyFailureStopsEarly | src/pages/Cart.jsx:56-64 | a failed key fetch ends the attempt before any script load or order request, with processing off and the cached key unchanged |
| Checkout.FetchedKeyNotSeen | src/pages/Cart.jsx:56-148 | a key fetched during the attempt is stored and the order is created, yet the widget does not open: the attempt ends with "Payment configuration is missing" |
| Checkout.RequestsWithCachedKey | src/pages/Cart.jsx:66-81 | with a cached key the attempt makes exactly the script load and then the order request; the script is loaded before the order is requested |
| Checkout.PrefetchUntilKeyStored | src/pages/Cart.jsx:29-34 | with no cached key a cart with items asks for the key; once a fetched key is stored, or the cart is emptied, it asks no more |
| Checkout.PurchaseEndToEnd | src/pages/Cart.jsx:51-153 | with a cached key, a loaded script and an order, the widget opens with the buttons disabled; a payment id then empties the cart, and no payment id keeps the cart and re-enables the buttons |
| Guards.RoleKey | src/components/ProtectedRoute.jsx:24 | absent exactly when the role is, otherwise the role in lower case |
| Guards.ProtectedRoute | src/components/ProtectedRoute.jsx:5-30 | loading shows the spinner whatever else holds; a visitor is sent to `/login` carrying the current path; an authenticated user gets the page exactly when no roles are listed or the lowercased role is listed, and is otherwise sent, without `from`, to the role's default page |
| Guards.PublicRoute | src/components/PublicRoute.jsx:4-30 | loading shows the spinner; the page renders exactly for a visitor who is not logged in; a logged-in user is redirected to `/instructor/courses` exactly when the role is "instructor" in any case, otherwise to `/dashboard`, a missing role included |
| Guards.DefaultRoutesAgree | src/components/PublicRoute.jsx:18-25 | the public guard's `getDefaultRoute` and the protected guard's fallback pick the same page for every role |
| Guards.GetDefaultRoute | src/components/PublicRoute.jsx:18-25 | an instructor, in any letter case, goes to `/instructor/courses` and everyone else to `/dashboard`; `Guards.DefaultRoutesAgree` states the protected guard picks the same page |
| Guards.RoleCaseInsensitive | src/components/ProtectedRoute.jsx:24-25 | a role that lowercases to "instructor", "Instructor" included, is admitted wherever "instructor" is allowed |
| Guards.EmptyRolesAdmitEveryone | src/components/ProtectedRoute.jsx:5-29 | with no allowed roles, every authenticated user gets the page, whatever the role, even none |
| Routes.DropTrailingEmpty | src/App.jsx:37-183 | the result is a prefix of the parts that does not end in an empty part, and every part cut off is empty |
| Routes.TrailingEmptyIgnored | src/App.jsx:37-183 | one more trailing empty part, as one more trailing slash gives, yields the same parts to match, so a pathname matches with or without trailing slashes |
| Routes.FirstMatch | src/App.jsx:37-183 | the first route, in declaration order, whose pattern matches the parts; none only when no pattern matches |
| Routes.Visit | src/App.jsx:37-183 | no page exactly when no pattern matches; otherwise what the matched route's guard decides |
| Routes.SegmentsOfPathname | src/App.jsx:37-183 | a pathname built from non-empty, slash-free parts reads back as those parts |
| Routes.BothMatchCompatible | src/App.jsx:37-183 | two patterns that both match the same parts have the same length and agree wherever both are literal |
| Routes.TablePatternsDisjoint | src/App.jsx:39-182 | no two patterns of the table can match the same pathname |
| Routes.FirstMatchIsTheMatch | src/App.jsx:37-183 | in a table of disjoint patterns, the first matching route is the only matching route |
| Routes.ResolveIsTheMatch | src/App.jsx:37-183 | a pathname resolves to route i exactly when route i's pattern matches it |
| Routes.Resolve | src/App.jsx:37-183 | the route a pathname reaches; `Routes.ResolveIsTheMatch` states it is route i exactly when route i's pattern matches |
| Routes.Decide | src/App.jsx:39-182 | the guard a route is wrapped in decides; `Routes.Visit` states a page is shown exactly as the matched route's guard decides |
| Routes.TableGuards | src/App.jsx:39-182 | only `/login` and `/register` are public-only; every `/instructor/...` route admits instructors only; the course, video and profile pages admit any authenticated role; every other page admits students only |
| Routes.KnownRolesNeverLoop | src/App.jsx:65-166 | a signed-in student or instructor who is redirected is admitted at the redirect target |
| Routes.UnknownRoleLoops | src/App.jsx:65-72 | a signed-in user whose role is neither student nor instructor, or who has none, is redirected from `/dashboard` to `/dashboard` |
| Routes.VisitorsReachLogin | src/App.jsx:39-182 | a visitor who is not signed in is sent from any guarded page to `/login` with the page remembered, and `/login` admits them |
| Routes.LoadingShowsSpinner | src/App.jsx:39-182 | while the auth state is loading every route shows the spinner |
| Routes.RenderedPagesMatchRole | src/App.jsx:39-182 | whoever sees an instructor page is an instructor, whoever sees a student-only page is a student, and the public-only pages render only for visitors who are not signed in |
| UserSlice.FetchProgress | src/features/user/userSlice.js:50-74 | a reply passes through; a 404 whose message is exactly "Progress not found" becomes the zero record for the requested course and user; any other failure is a rejection with the server's message |
| UserSlice.PendingStarts | src/features/user/userSlice.js:122-201 | each pending case only starts loading and clears the error |
| UserSlice.FulfilledEnds | src/features/user/userSlice.js:122-201 | each fulfilled case ends loading |
| UserSlice.RejectedFails | src/features/user/userSlice.js:122-201 | each rejected case changes only loading and the error, which is the server's message or that request's own fallback |
| UserSlice.Reduce | src/features/user/userSlice.js:112-202 | the slice's reducers and thunk cases; `UserSlice.PendingStarts`, `UserSlice.FulfilledEnds`, `UserSlice.RejectedFails`, `UserSlice.ClearersFrame` and the per-thunk lemmas below state each case |
| UserSlice.ClearersFrame | src/features/user/userSlice.js:113-118 | `clearProfile` changes only the profile, `clearError` only the error |
| UserSlice.ProgressStoredUnderCourse | src/features/user/userSlice.js:167-170 | a fetched record is filed under its own course id, adds only that key, and leaves every other course's record as it was |
| UserSlice.NotFoundFilesZeroRecord | src/features/user/userSlice.js:58-170 | the not-found reply files the zero record under the requested course |
| UserSlice.EnrollAppends | src/features/user/userSlice.js:193-201 | a successful enrolment appends the returned course after the unchanged earlier ones; a failed one keeps the list and reports the message or "Failed to enroll in course" |
| UserSlice.EnrollTwiceDuplicates | src/features/user/userSlice.js:193-197 | enrolling twice in a course lists it twice more: there is no duplicate check |
| UserSlice.EnrolledListReplaced | src/features/user/userSlice.js:153-156 | the fetched list replaces the old one, or empties it when the reply has none, and the progress records are untouched |
| CourseSlice.PendingStarts | src/features/courses/courseSlice.js:118-189 | each pending case only starts loading with no error and changes nothing else |
| CourseSlice.RejectedFails | src/features/courses/courseSlice.js:118-189 | each rejected case changes only loading and the error, which is the server's message or that case's own fallback |
| CourseSlice.Reduce | src/features/courses/courseSlice.js:96-190 | the slice's reducers and thunk cases; `CourseSlice.PendingStarts`, `CourseSlice.RejectedFails` and the per-thunk lemmas below state each case |
| CourseSlice.FetchShowsAll | src/features/courses/courseSlice.js:122-128 | fetching all courses replaces the list and total and switches off filtering, leaving the last filter result in place |
| CourseSlice.FilterShowsFiltered | src/features/courses/courseSlice.js:162-184 | either filter result replaces the filtered list and total and switches filtering on, leaving the full list in place; the two filter cases act alike |
| CourseSlice.CreateAppends | src/features/courses/courseSlice.js:149-153 | a created course is appended and the total grows by exactly one |
| CourseSlice.ClearFiltersKeepsList | src/features/courses/courseSlice.js:103-108 | `clearFilters` empties the filter result and both selections and keeps the full list and total |
| CourseSlice.CategoryJoin | src/features/courses/courseSlice.js:52 | one category id is sent as it is; each further id is added after a comma |
| StringUtils.CapitalizeWord | src/utils/stringUtils.js:10 | same length; the first character upper-cased and every later one lower-cased |
| StringUtils.CapitalizeWords | src/utils/stringUtils.js:10 | every word is capitalized, in order |
| StringUtils.CapitalizeName | src/utils/stringUtils.js:6-12 | the empty string gives ""; otherwise each position keeps its space, upper-cases the first character of a word and lower-cases the rest |
| StringUtils.SplitMapJoin | src/utils/stringUtils.js:8-11 | split on spaces, capitalize each word and join with spaces gives the position-wise characterisation |
| StringUtils.WordThenRest | src/utils/stringUtils.js:8-11 | a word, a space and a capitalized rest capitalize as the word on its own, the space, then the rest |
| StringUtils.CapitalizeIdempotent | src/utils/stringUtils.js:8-11 | capitalizing twice equals capitalizing once |
| StringUtils.SameSpacesSameCount | src/utils/stringUtils.js:9 | two texts with spaces at the same positions have the same number of spaces |
| StringUtils.SplitCountsSpaces | src/utils/stringUtils.js:9 | splitting on spaces gives one part more than there are spaces, empty parts included |
| StringUtils.CountSpacesPrefix | src/utils/stringUtils.js:9 | a space-free prefix contributes no space to the count |
| StringUtils.CapitalizeKeepsWords | src/utils/stringUtils.js:8-11 | the output has the input's length, spaces at the same positions, and the same number of words, empty words from repeated spaces included |
| Pagination.SliceIndex | src/pages/Courses.jsx:119-122 | the position is within the list, and an index already within it is kept |
| Pagination.JsSlice | src/pages/Courses.jsx:119-122 | an in-range slice is the plain subsequence; no slice is longer than the list |
| Pagination.PageCount | src/pages/Courses.jsx:123 | the ceiling of n / size: enough pages for every item, and no page wholly beyond them; no items means no pages |
| Pagination.Page | src/pages/Courses.jsx:117-122 | a page holds at most `size` items |
| Pagination.PageIsPrefix | src/pages/Courses.jsx:117-122 | a page from the first on is the run of up to `size` items that starts at item `(page - 1) * size` |
| Pagination.AppendPage | src/pages/Courses.jsx:117-122 | pages 1 to k are pages 1 to k - 1 followed by the next run of `size` items of the list, clamped to its end |
| Pagination.Prefix | src/pages/Courses.jsx:117-122 | up to `size` items taken in order from `start`, exactly `size` while that many remain |
| Pagination.PagesArePrefix | src/pages/Courses.jsx:117-123 | pages 1 to k laid end to end are the first `k * size` items |
| Pagination.PageItems | src/pages/Courses.jsx:117-122 | item k of page p is item `(p - 1) * size + k` of the list |
| Pagination.PagesPartition | src/pages/Courses.jsx:117-123 | pages 1 to the page count laid end to end give back the whole list, so every item is on exactly one page |
| Pagination.PagesInRange | src/pages/Courses.jsx:117-123 | every page up to the page count has an item, and every later page is empty |
| CoursesPage.Search | src/pages/Courses.jsx:110-114 | a course is kept exactly when its lower-cased title or description contains the lower-cased query; nothing is added |
| CoursesPage.DisplayCourses | src/pages/Courses.jsx:109 | the filtered list while a filter is on, otherwise the full list |
| CoursesPage.CurrentCourses | src/pages/Courses.jsx:116-122 | at most six courses, item k of page p being result `(p - 1) * 6 + k` |
| CoursesPage.TotalPages | src/pages/Courses.jsx:123 | the ceiling of the result count over six |
| CoursesPage.HandleCategoryFilter | src/pages/Courses.jsx:74-84 | a second click on the selected category deselects it and fetches every course; any other click selects it, writes it to the URL and asks for its courses; the instructor selection is cleared either way |
| CoursesPage.HandleInstructorFilter | src/pages/Courses.jsx:86-95 | the same toggle for instructors, clearing the category selection and leaving the URL alone |
| CoursesPage.HandleSearch | src/pages/Courses.jsx:97-99 | the query becomes the typed text, nothing else changes |
| CoursesPage.ClearFilters | src/pages/Courses.jsx:101-107 | no category, instructor or query remains set, the URL parameters are emptied and every course is fetched |
| CoursesPage.HandlePageChange | src/pages/Courses.jsx:125-128 | only the current page changes |
| CoursesPage.ResetPage | src/pages/Courses.jsx:55-57 | the page-reset effect changes nothing but the page, which becomes 1 or stays |
| CoursesPage.FindCategory | src/pages/Courses.jsx:60 | the position of the first category with the id, none exactly when no category has it |
| CoursesPage.FindInstructor | src/pages/Courses.jsx:68 | the position of the first instructor with the id, none exactly when no instructor has it |
| CoursesPage.GetCategoryName | src/pages/Courses.jsx:59-62 | the first matching category's name, or "Uncategorized" when none matches |
| CoursesPage.GetInstructorName | src/pages/Courses.jsx:64-72 | the course's own non-empty instructor name first; else the capitalized full name of the first matching instructor; else "Unknown Instructor" |
| CoursesPage.SearchConcat | src/pages/Courses.jsx:110-114 | searching a concatenation is searching each part in turn, so the order of the list is kept |
| CoursesPage.EmptyQueryKeepsAll | src/pages/Courses.jsx:110-114 | the empty query keeps every course |
| CoursesPage.LowerUpper | src/pages/Courses.jsx:112-113 | lower-casing an upper-cased query gives the lower-cased query |
| CoursesPage.SearchIgnoresQueryCase | src/pages/Courses.jsx:110-114 | the query typed in capitals finds the same courses |
| CoursesPage.ShowsFilteredAfterCategoryFilter | src/pages/Courses.jsx:109-123 | after a category filter comes back the page searches the filtered courses, and its pages cover the results exactly |
| CoursesPage.CategoryToggleTwice | src/pages/Courses.jsx:74-84 | clicking the same category twice leaves nothing selected, and the second click fetches every course |
| CoursesPage.SelectionsExclusive | src/pages/Courses.jsx:83-94 | after either toggle at most one of the two selections is set |
| CoursesPage.PageResetIffFiltersChange | src/pages/Courses.jsx:55-57 | the page goes back to 1 exactly when the category, the instructor or the query changed |
| CoursesPage.SearchResetsPage | src/pages/Courses.jsx:55-128 | a new query always brings the page back to 1; choosing a page under the same filters keeps it |
| QuizAttempts.Load | src/pages/QuizAttempts.jsx:15-55 | without a user id no request is sent and the spinner stays; a reply shows its attempts; a failure shows "Failed to fetch quiz attempts" |
| QuizAttempts.CurrentAttempts | src/pages/QuizAttempts.jsx:59-61 | at most ten attempts, item k of page p being attempt `(p - 1) * 10 + k` |
| QuizAttempts.TotalPages | src/pages/QuizAttempts.jsx:19-58 | the ceiling of the attempt count over ten |
| QuizAttempts.PageControls | src/pages/QuizAttempts.jsx:134-162 | the controls show exactly when there is more than one page; first and previous are disabled exactly on page 1, next and last exactly on the last page |
| QuizAttempts.LabelIntegerForm | src/pages/QuizAttempts.jsx:120-124 | "Passed" exactly when all answers are right, 0 of 0 included; "Average" exactly when not passed and twice the correct count reaches the total; "Failed" otherwise |
| QuizAttempts.BadgeMatchesLabel | src/pages/QuizAttempts.jsx:112-124 | the badge colour is green, yellow or red exactly when the label is Passed, Average or Failed |
| QuizAttempts.Label | src/pages/QuizAttempts.jsx:120-124 | "Passed", "Average" or "Failed" by the correct count against the question count; `QuizAttempts.LabelIntegerForm` states the thresholds in integers |
| QuizAttempts.BadgeColour | src/pages/QuizAttempts.jsx:112-117 | the badge colour by the same tests; `QuizAttempts.BadgeMatchesLabel` states it is green, yellow or red exactly with the label |
| QuizAttempts.ControlsStayInRange | src/pages/QuizAttempts.jsx:134-162 | from any page in range every enabled button leads to a page in range |
| QuizAttempts.ReachablePagesNonEmpty | src/pages/QuizAttempts.jsx:58-162 | every page an enabled button reaches holds an attempt, and the pages together list each attempt once, in order |
| Navbar.FirstChar | src/components/Navbar.jsx:55 | one character exactly when the name is present and non-empty, and then the name's first character; otherwise "" |
| Navbar.Initials | src/components/Navbar.jsx:52-56 | "" without a user; with one, at most two characters, one per present name, the first name's letter first and the last name's last, each upper-cased |
| Navbar.Links | src/components/Navbar.jsx:105-340 | a visitor sees login and register only; the cart link shows on the wide bar exactly for role "student" and in the mobile menu exactly for any role but "instructor"; instructors get the instructor pages and everyone else the dashboard and profile |
| Navbar.AtMostOneActive | src/components/Navbar.jsx:26-28 | no two links of any bar share a path, so at most one is highlighted |
| Navbar.IsActive | src/components/Navbar.jsx:26-28 | a link is highlighted when the pathname is its path; `Navbar.AtMostOneActive` states at most one link of a bar is |
| Navbar.DesktopLinksOnMobile | src/components/Navbar.jsx:109-247 | every link of the wide bar is also in the mobile menu, for every role |
| Navbar.CapitalizedStudentRole | src/components/Navbar.jsx:109-247 | a role stored as "Student" passes the case-insensitive student guard and sees the cart in the mobile menu but not on the wide bar |
| Navbar.InitialsOfFullName | src/components/Navbar.jsx:52-56 | a user with both names gets exactly the two upper-cased first letters |
| Message.Send | src/pages/Message.jsx:23-36 | a draft that is all white space changes nothing; any other draft is appended, unchanged, as the last message, sent by "You" with id one more than the list's length and status "sent", and the draft is cleared |
| Message.Type | src/pages/Message.jsx:77 | typing replaces the draft and leaves the messages alone |
| Message.SendKeepsHistory | src/pages/Message.jsx:33 | sending keeps every earlier message in place, in order |
| Message.IdsStaySequential | src/pages/Message.jsx:4-33 | from a list numbered 1, 2, 3, ... any run of typing and sending keeps the list so numbered, so no id repeats |
| Message.InitialIdsSequential | src/pages/Message.jsx:4-19 | the two opening messages are numbered 1 and 2 |
| Message.SecondSendAddsNothing | src/pages/Message.jsx:25-34 | sending again right after a send adds nothing, since the draft is then empty |
| CourseCard.ImageUrl | src/components/CourseCard.jsx:31-36 | without a thumbnail the placeholder picture; with one, the same server address a profile picture gets |
| CourseCard.ItemOf | src/components/CourseCard.jsx:58-66 | the cart entry carries the course's id, title, thumbnail, instructor name and the price given |
| CourseCard.HandleEnrollClick | src/components/CourseCard.jsx:38-74 | a visitor is sent to login with "Please login to enroll in the course"; a free course dispatches one enrollment, then goes to the enrolled courses or shows the rejection's message or "Failed to process enrollment"; a paid course always ends on the cart, being added with a success toast exactly when it was not there yet |
| CourseCard.ImageLikeProfilePicture | src/components/CourseCard.jsx:31-36 | a non-empty thumbnail path becomes the same address as a profile picture with that path |
| CourseCard.FreeCourseSkipsCart | src/components/CourseCard.jsx:48-53 | clicking on a free course leaves the cart as it was, whoever clicks |
| CourseCard.PaidCourseClickedTwice | src/components/CourseCard.jsx:27-69 | after one click on a paid course it is in the cart, the cart keeps its invariant, and a second click only navigates to the cart |
| CourseDetail.TotalLessons | src/pages/CourseDetail.jsx:204-207 | corrected lesson count: 0 without lessons, a section without a video list counting as empty |
| CourseDetail.TotalDuration | src/pages/CourseDetail.jsx:193-202 | corrected running time: 0 without lessons, a section without a video list adding nothing |
| CourseDetail.DisplayName | src/pages/CourseDetail.jsx:52-55 | the author's name if present and non-empty, else the review's own name if so, else "Anonymous" |
| CourseDetail.ShowReviews | src/pages/CourseDetail.jsx:52-56 | one shown review per fetched review, in order, each keeping its review and carrying its display name |
| CourseDetail.HandleSubmitReview | src/pages/CourseDetail.jsx:137-174 | a request goes out exactly for a signed-in user with a rating; a visitor is sent to login with "Please login to submit a review"; a missing rating shows "Please select a rating"; success appends the created review under the user's printed first and last names, clears rating and comment and shows the reply's message or the default; failure keeps the form and shows the reply's message or "Failed to submit review"; nothing is dispatched |
| CourseDetail.HandleEnroll | src/pages/CourseDetail.jsx:82-111 | a visitor is sent to login; a signed-in user's enrollment is preceded by adding a price-0 copy exactly when the course is not in the cart; success goes to the enrolled courses, failure shows the message or "Failed to enroll in the course" |
| CourseDetail.HandleAddToCart | src/pages/CourseDetail.jsx:113-135 | a visitor is sent to login with "Please login to add course to cart"; a course in the cart only navigates to the cart; otherwise it is added at its price with a success toast and no navigation |
| CourseDetail.AddToCartTwice | src/pages/CourseDetail.jsx:113-135 | from a valid cart, one press leaves the course in the cart with the cart still valid, and a second press only goes to the cart |
| CourseDetail.Click | src/pages/CourseDetail.jsx:498-505 | the button runs the enroll handler exactly for a free course and the add-to-cart handler otherwise |
| CourseDetail.FoldNaN | src/pages/CourseDetail.jsx:193-207 | once NaN, the sum stays NaN over any remaining sections |
| CourseDetail.CorrectedStep | src/pages/CourseDetail.jsx:193-207 | a listed first section contributes its count or running time to the corrected total |
| CourseDetail.FoldAllListed | src/pages/CourseDetail.jsx:193-207 | when every section has a video list the page's fold is the corrected total added to its start |
| CourseDetail.FoldMissing | src/pages/CourseDetail.jsx:193-207 | one section without a video list anywhere makes the fold NaN |
| CourseDetail.TotalsAsWritten | src/pages/CourseDetail.jsx:193-207 | the page's totals agree with the corrected ones exactly when every section has a video list, and are both 0 otherwise |
| CourseDetail.TotalLessonsAsWritten | src/pages/CourseDetail.jsx:204-207 | the lesson count as the page folds it; `CourseDetail.TotalsAsWritten` states it agrees with the corrected count exactly when every section has a video list, and is 0 otherwise |
| CourseDetail.MissingListZeroesTotals | src/pages/CourseDetail.jsx:193-207 | a ten-second video plus one section without a list shows 0 lessons and 0 seconds where 1 and 10 are meant |
| CourseDetail.CorrectedTotalsAdd | src/pages/CourseDetail.jsx:204-207 | the corrected count adds over concatenated section lists, and a section without a list adds nothing |
| CourseDetail.FilteredCourseHidesActions | src/pages/CourseDetail.jsx:39 | after a category filter listing a course, the page counts it as "own" for a student who does not teach it, hiding the button and the review form |
| CourseDetail.IsOwnCourseAsWritten | src/pages/CourseDetail.jsx:39 | "own course" as the page tests it, by membership in the last filter result; `CourseDetail.FilteredCourseHidesActions` states the student it misleads |
| CourseDetail.OwnCourseByInstructor | src/pages/CourseDetail.jsx:39 | with the corrected test a course is one's own exactly when one teaches it, and never for a visitor |
| CourseDetail.FailedEnrollLeavesFreeCopy | src/pages/CourseDetail.jsx:90-110 | a failed enrollment in a free course leaves a price-0 copy of it at the end of the cart and does not navigate |
| CourseDetail.RatingRequired | src/pages/CourseDetail.jsx:145-148 | without a rating nothing is sent and the form keeps what was typed |
| EnrolledCourse.ProgressOrFailure | src/pages/EnrolledCourseDetail.jsx:31-50 | a progress reply is taken as it is; a 404 "Progress not found" becomes the zero record for this course and user; any other failure is passed on |
| EnrolledCourse.WithTotals | src/pages/EnrolledCourseDetail.jsx:56-68 | a record whose total lesson count is 0 gets the number of lessons and the number of listed videos, a missing list counting 0; any other record is kept |
| EnrolledCourse.QuizMap | src/pages/EnrolledCourseDetail.jsx:70-84 | every entry belongs to a lesson whose request succeeded with a non-empty list and holds that list; every such lesson has an entry |
| EnrolledCourse.Load | src/pages/EnrolledCourseDetail.jsx:25-103 | without a course id and a user id nothing is requested and the spinner stays; otherwise the spinner goes; when both requests go through the page shows the lessons, the progress with its totals filled in and the first section open; otherwise it stays empty with "Failed to load course data" |
| EnrolledCourse.StartQuiz | src/pages/EnrolledCourseDetail.jsx:116-121 | the video closes, the quiz opens with one empty answer per question, and the old results go |
| EnrolledCourse.SelectAnswer | src/pages/EnrolledCourseDetail.jsx:123-129 | the chosen question takes the option, every other answer and the rest of the session stay |
| EnrolledCourse.SubmitQuiz | src/pages/EnrolledCourseDetail.jsx:131-164 | a request goes out exactly when every answer is given, else "Please answer all questions"; two successes store the merged replies with a success toast; a failure of either keeps the session and shows its message or "Failed to submit quiz" |
| EnrolledCourse.PageAgreesWithSlice | src/pages/EnrolledCourseDetail.jsx:31-50 | the page and the user slice's progress thunk turn exactly the same failures into the same zero record |
| EnrolledCourse.FreshProgressCountsEverything | src/pages/EnrolledCourseDetail.jsx:31-68 | a student without progress gets a record counting every lesson and listed video, with no video completed |
| EnrolledCourse.IsVideoCompleted | src/pages/EnrolledCourseDetail.jsx:112-114 | a video is shown completed when the progress lists it; `EnrolledCourse.FreshProgressCountsEverything` states no video is completed in a fresh record |
| EnrolledCourse.FreshQuizRefused | src/pages/EnrolledCourseDetail.jsx:116-135 | right after a quiz with any question starts, submitting sends nothing |
| EnrolledCourse.AnsweredStaysAnswered | src/pages/EnrolledCourseDetail.jsx:123-135 | once every question is answered, changing an answer keeps the quiz submittable |
| EnrolledCourse.ScoreWinsOnSharedFields | src/pages/EnrolledCourseDetail.jsx:153-156 | on a field both replies carry, the results hold the score reply's value |
| Lessons.Videos | src/pages/EnrolledCourseDetail.jsx:60 | a lesson's listed videos, or none when the server sent no list |
| Lessons.InitialExpanded | src/pages/EnrolledCourseDetail.jsx:86-91 | after loading, a section is open exactly when it is the first lesson |
| Lessons.Toggle | src/pages/EnrolledCourseDetail.jsx:105-110 | toggling flips whether that section is open and no other |
| Lessons.TotalVideosAppend | src/pages/EnrolledCourseDetail.jsx:59-62 | the video count of two lesson lists put together is the sum of their counts |
| Lessons.MissingListsCountZero | src/pages/EnrolledCourseDetail.jsx:60 | a lesson without a video list adds nothing to the count |
| Lessons.ToggleTwice | src/pages/CourseDetail.jsx:75-80 | toggling the same section twice leaves every section as it was |
| QuizForm.Init | src/pages/instructor/ManageLessons.jsx:20-29 | no messages; a new quiz starts with an empty description and one blank question of four empty options; an edited quiz starts from its own description and questions |
| QuizForm.OptionErrors | src/pages/instructor/ManageLessons.jsx:48-53 | an option has a message exactly when it is blank, and the message names its 1-based position |
| QuizForm.QuestionErrorsOf | src/pages/instructor/ManageLessons.jsx:42-61 | a question gets an entry exactly when its text or an option is blank; the entry holds a text message exactly when the text is blank, and the option messages exactly when an option is |
| QuizForm.QuestionErrorMap | src/pages/instructor/ManageLessons.jsx:40-62 | a question index has an entry exactly when that question has a blank field, and holds that question's messages |
| QuizForm.Validate | src/pages/instructor/ManageLessons.jsx:31-70 | "Quiz description is required" exactly when the description is blank; a question map exactly when some question has a blank field; no entry without a message |
| QuizForm.Submit | src/pages/instructor/ManageLessons.jsx:106-111 | the form keeps its fields and takes the new messages; the quiz is handed on exactly when it is complete, carrying the description and questions as typed |
| QuizForm.AddQuestion | src/pages/instructor/ManageLessons.jsx:72-77 | one blank question of four empty options is appended and everything else stays |
| QuizForm.ChangeDescription | src/pages/instructor/ManageLessons.jsx:122-127 | the description takes the text and loses its message; questions and their messages stay |
| QuizForm.ClearFieldError | src/pages/instructor/ManageLessons.jsx:88-103 | editing a question's text drops only its text message, editing its options drops only their messages, editing the answer changes nothing; other questions and the description keep theirs, and no empty entry is left |
| QuizForm.ChangeQuestion | src/pages/instructor/ManageLessons.jsx:79-104 | only the edited field of the edited question changes, and its message is cleared as above |
| QuizForm.Run | src/pages/instructor/ManageLessons.jsx:72-104 | the editor never loses a question, and a run of steps without question edits leaves the questions it started with as they were |
| QuizForm.PassesIffComplete | src/pages/instructor/ManageLessons.jsx:31-70 | validation passes exactly when the description, every question text and every option are non-blank |
| QuizForm.BlankOptionReported | src/pages/instructor/ManageLessons.jsx:48-57 | a blank option is reported under its question as "Option n is required" with its 1-based position |
| QuizForm.BlankQuestionBlocksSubmit | src/pages/instructor/ManageLessons.jsx:20-111 | a new form, and any form right after a question is added, is not handed on |
| QuizForm.UnchangedQuizResubmits | src/pages/instructor/ManageLessons.jsx:20-111 | reopening a complete quiz and submitting it unchanged hands on that quiz's description and questions |
| QuizForm.EditsKeepErrorsWellFormed | src/pages/instructor/ManageLessons.jsx:88-103 | after a validation, any edit leaves the messages with no empty entry |
| ManageLessons.LessonList | src/pages/instructor/ManageLessons.jsx:283 | the course's lessons, or none when the server sent no list |
| ManageLessons.QuizMap | src/pages/instructor/ManageLessons.jsx:292-298 | when every quiz request succeeds, exactly the lesson ids are keys |
| ManageLessons.Load | src/pages/instructor/ManageLessons.jsx:278-308 | the spinner always goes; a failed course request leaves no lessons and no quizzes; otherwise the lessons show with the first one open; the quizzes are kept exactly when every quiz request succeeds, and any failure shows "Failed to load course details" with no quizzes |
| ManageLessons.AddLesson | src/pages/instructor/ManageLessons.jsx:317-357 | a request goes out exactly for a non-blank title, else "Please enter a lesson title"; success appends the new lesson with empty video and quiz lists, clears and closes the title field and shows the reply's message or the default; failure keeps the page and shows the response's message, else the error's, else "Failed to add lesson" |
| ManageLessons.DefaultTitle | src/pages/instructor/ManageLessons.jsx:385 | the file name's longest dot-free prefix: a prefix of the name with no dot, followed in the name by a dot when shorter |
| ManageLessons.PickVideo | src/pages/instructor/ManageLessons.jsx:359-392 | never sends; no file does nothing; unreadable metadata shows "Error loading video file"; otherwise only that lesson's pending video becomes the file, its duration, its name and the default title |
| ManageLessons.ChangeVideoTitle | src/pages/instructor/ManageLessons.jsx:394-402 | only that lesson's pending video changes: it takes the title and keeps its file, or appears with the title and no file |
| ManageLessons.AppendVideo | src/pages/instructor/ManageLessons.jsx:448-467 | every lesson with the id gets the video at the end of its list, a missing list counting as empty; every other lesson is kept |
| ManageLessons.AddVideo | src/pages/instructor/ManageLessons.jsx:404-484 | a request goes out exactly when a file is pending and its title is not blank, refusals being "Please select a video file" and then "Please enter a video title"; success appends the video and drops the pending entry; failure keeps the page and shows the response's, else the error's, else the default message |
| ManageLessons.QuizzesFor | src/pages/instructor/ManageLessons.jsx:499 | a lesson's listed quizzes, or none without an entry |
| ManageLessons.CreateQuiz | src/pages/instructor/ManageLessons.jsx:486-513 | success appends the quiz to that lesson's list only and closes the form; failure keeps the page and shows the message or "Failed to create quiz" |
| ManageLessons.ReplaceQuiz | src/pages/instructor/ManageLessons.jsx:526-528 | every quiz with the id is replaced in place by the updated one, the rest kept |
| ManageLessons.UpdateQuiz | src/pages/instructor/ManageLessons.jsx:515-543 | success replaces the quiz in the list of the lesson being edited and closes the editor; failure keeps the page and shows the message or "Failed to update quiz" |
| ManageLessons.UpdateKeepsOtherQuizzes | src/pages/instructor/ManageLessons.jsx:521-528 | a successful update keeps the number of quizzes listed under every lesson and every other lesson's list, and lists the server's quiz exactly where a quiz with the edited id was |
| ManageLessons.RemoveQuiz | src/pages/instructor/ManageLessons.jsx:555 | the list keeps exactly the quizzes whose id differs and grows no longer |
| ManageLessons.RemoveQuizConcat | src/pages/instructor/ManageLessons.jsx:555 | removing from a concatenation is removing from each part, so the kept quizzes stay in order and with their repetitions |
| ManageLessons.RemoveQuizKeepsOthers | src/pages/instructor/ManageLessons.jsx:555 | a quiz with another id stays, between the filtered quizzes before it and the filtered quizzes after it |
| ManageLessons.DeleteQuiz | src/pages/instructor/ManageLessons.jsx:545-569 | success removes the quiz from that lesson's list and closes the confirmation; failure keeps the page and shows the message or "Failed to delete quiz" |
| ManageLessons.EditorAfter | src/pages/instructor/ManageLessons.jsx:20-29 | the editor opened on a listed quiz shows at least that quiz's questions after any run of steps |
| ManageLessons.CancelEditAsWritten | src/pages/instructor/ManageLessons.jsx:79-86 | as written, closing the editor keeps the quiz's id, lesson, description and question count, but its questions are the editor's first ones, edits included; every other quiz and lesson list stays |
| ManageLessons.CancelEdit | src/pages/instructor/ManageLessons.jsx:855 | the intended cancel closes the editor and leaves the lessons and every listed quiz as they were |
| ManageLessons.QuizMapValue | src/pages/instructor/ManageLessons.jsx:294-297 | each lesson id holds the quiz list fetched for the last lesson with that id |
| ManageLessons.AddedLessonCounts | src/pages/instructor/ManageLessons.jsx:332-342 | a created lesson adds one to the lesson count and nothing to the video count |
| ManageLessons.VideoCountAfterAdd | src/pages/instructor/ManageLessons.jsx:448-467 | an upload adds to the video count one video per lesson carrying the id |
| ManageLessons.UploadToUnknownLesson | src/pages/instructor/ManageLessons.jsx:448-467 | an upload to an id no lesson has changes no lesson |
| ManageLessons.UploadClearsPending | src/pages/instructor/ManageLessons.jsx:469-473 | after picking a file with a non-blank default title and uploading it, no video is pending for that lesson |
| ManageLessons.RemoveCreated | src/pages/instructor/ManageLessons.jsx:553-556 | removing a just-appended quiz whose id is new gives the list back |
| ManageLessons.CreateThenDelete | src/pages/instructor/ManageLessons.jsx:486-569 | creating a quiz and then deleting it restores the lesson's list |
| ManageLessons.RemoveTwice | src/pages/instructor/ManageLessons.jsx:555 | removing the same quiz twice removes nothing more |
| ManageLessons.BadgeMissesCreatedQuiz | src/pages/instructor/ManageLessons.jsx:698 | after a quiz is created the lesson row's badge keeps its count while the list under the lesson grows by one |
| ManageLessons.QuizBadge | src/pages/instructor/ManageLessons.jsx:698 | the lesson row's count read from `lesson.quiz`; `ManageLessons.BadgeMissesCreatedQuiz` and `ManageLessons.NewLessonBadgeStaysZero` state that quiz creation leaves it unchanged |
| ManageLessons.NewLessonBadgeStaysZero | src/pages/instructor/ManageLessons.jsx:698 | a lesson added on the page shows 0 quizzes after a quiz is created for it, while one is listed |
| ManageLessons.ListedCountFollowsChanges | src/pages/instructor/ManageLessons.jsx:497-556 | a count read from the listed quizzes grows by one on a creation and drops to the filtered list's length on a deletion |
| ManageLessons.CancelKeepsTypedText | src/pages/instructor/ManageLessons.jsx:79-86 | as written, a question text changed from "A" to "B" and then cancelled is "B" in the listed quiz, so the editor reopens on "B" |
| ManageLessons.CancelAgreesIffQuestionsKept | src/pages/instructor/ManageLessons.jsx:79-86 | the written cancel and the intended one agree exactly when the run left the quiz's own questions unchanged, which a run without question edits always does |
| ManageLessons.CancelDiscardsEdits | src/pages/instructor/ManageLessons.jsx:853-855 | after the intended cancel the editor reopens on the quiz as it was listed |
| CreateCourse.ChangeInput | src/pages/instructor/CreateCourse.jsx:35-41 | the named field takes the value and no other changes |
| CreateCourse.PickThumbnail | src/pages/instructor/CreateCourse.jsx:43-67 | no file does nothing; a file the image check refuses leaves the form and shows the check's message; an accepted file becomes the thumbnail |
| CreateCourse.Submit | src/pages/instructor/CreateCourse.jsx:69-115 | a request goes out exactly when no check fails, else the first failing check's message; the request carries the form's fields and the user id; success goes to the instructor's courses with "Course created successfully!"; failure shows the message or "Failed to create course" |
| CreateCourse.FirstProblemIsFirst | src/pages/instructor/CreateCourse.jsx:72-95 | the chain of checks reports the first of the full list of failing checks, and passes exactly when there is none |
| CreateCourse.FirstOfChecks | src/pages/instructor/CreateCourse.jsx:72-95 | the list of failing checks is empty exactly when none fails, and otherwise starts with the first failing one in the order title, description, price, category, thumbnail |
| CreateCourse.BlankTitleRefused | src/pages/instructor/CreateCourse.jsx:72-75 | a form whose title is blank or all white space is refused for its title and sends nothing, whatever else it holds |
| CreateCourse.InitialFormRefused | src/pages/instructor/CreateCourse.jsx:19-75 | the form as first shown is refused for its title and sends nothing |
| CreateCourse.NonPositivePriceRefused | src/pages/instructor/CreateCourse.jsx:82-85 | with title and description filled, a price of zero or less is refused |
| CreateCourse.AcceptedThumbnailCompletes | src/pages/instructor/CreateCourse.jsx:43-95 | a form complete but for its thumbnail passes every check once an accepted file is picked |
| CreateCourse.FailingParts | src/pages/instructor/CreateCourse.jsx:72-95 | no check fails exactly when title and description are not blank, the price is positive, a category is chosen and a thumbnail is picked |
| CreateLesson.ChangeInput | src/pages/instructor/CreateLesson.jsx:25-39 | the named field of the lesson or video form takes the value and no other changes |
| CreateLesson.PickFile | src/pages/instructor/CreateLesson.jsx:41-50 | no file does nothing; any file becomes the video's file, unchecked |
| CreateLesson.CreateWith | src/pages/instructor/CreateLesson.jsx:52-76 | a request goes out exactly for a non-blank title, else "Please enter a lesson title"; success makes the id read from the reply the uploads' lesson and clears the title; failure keeps the page and shows the response's message or "Failed to create lesson" |
| CreateLesson.CreateLessonAsWritten | src/pages/instructor/CreateLesson.jsx:67 | after a successful creation the uploads' lesson is the reply's own `_id` |
| CreateLesson.CreateLesson | src/pages/instructor/ManageLessons.jsx:335 | after a successful creation the uploads' lesson is the `_id` inside the reply's `newLesson` |
| CreateLesson.AddVideo | src/pages/instructor/CreateLesson.jsx:78-127 | a request goes out exactly when no check fails, else the first failing check's message; it carries the form's title, duration and file and the current lesson; success empties the video form with "Video added successfully!"; failure keeps the page and shows the response's message or "Failed to add video" |
| CreateLesson.FirstProblemIsFirst | src/pages/instructor/CreateLesson.jsx:81-99 | the chain of checks reports the first of the full list of failing checks, and passes exactly when there is none |
| CreateLesson.FirstOfChecks | src/pages/instructor/CreateLesson.jsx:81-99 | the list of failing checks is empty exactly when none fails, and otherwise starts with the first failing one in the order lesson, title, duration, file |
| CreateLesson.NoUploadBeforeLesson | src/pages/instructor/CreateLesson.jsx:81-84 | before any lesson exists every upload is refused with "Please create a lesson first", whatever the form holds |
| CreateLesson.UploadKeepsLessonClearsForm | src/pages/instructor/CreateLesson.jsx:115-121 | after an upload the lesson stays the target, and the next upload is refused for its title until the form is filled again |
| CreateLesson.AsWrittenLosesLesson | src/pages/instructor/CreateLesson.jsx:67-84 | with a reply that carries the lesson inside `newLesson` only, the page as written refuses every later upload with "Please create a lesson first" |
| CreateLesson.CreatedLessonReceivesVideos | src/pages/instructor/CreateLesson.jsx:78-113 | reading the id inside `newLesson`, a complete video form is sent to the created lesson |
| Profile.OrEmpty | src/pages/Profile.jsx:41-43 | a present non-empty field as it is, anything else as "" |
| Profile.IdOf | src/pages/Profile.jsx:34 | the user's id exactly when there is a user |
| Profile.FetchEffectAsWritten | src/pages/Profile.jsx:31-36 | when the guard holds the page is marked fetched and the user's profile is requested; otherwise nothing changes |
| Profile.FetchEffect | src/pages/Profile.jsx:31-36 | the profile is requested exactly for a user with an id when none was requested yet, and the page is then marked fetched; otherwise nothing changes |
| Profile.SyncForm | src/pages/Profile.jsx:38-52 | with a user the form is refilled from it, missing fields as "", and any picked file dropped; a stored picture replaces the preview, which is otherwise kept; without a user nothing changes |
| Profile.ChangeInput | src/pages/Profile.jsx:54-60 | the named field takes the value and no other changes |
| Profile.PickPicture | src/pages/Profile.jsx:62-98 | no file does nothing; a file the image check refuses only shows the check's message; an accepted file becomes the picture to send and the preview |
| Profile.ToggleEditing | src/pages/Profile.jsx:171 | editing flips and the form, preview and messages stay, so a cancel keeps what was typed |
| Profile.Submit | src/pages/Profile.jsx:100-144 | the form is sent as it is for the user's id; success hands the returned user to the auth slice, ends editing, drops the picked file, shows the returned picture at its server address (the slice rewrote the returned object in place before the preview reads it) or no preview, and "Profile updated successfully!"; failure only shows the message or "Failed to update profile" |
| Profile.PreviewIsSessionPicture | src/pages/Profile.jsx:121-127 | after a successful update the preview shows exactly the picture of the user the auth slice then holds, or nothing when that user has none |
| Profile.FetchNeverFires | src/pages/Profile.jsx:32 | as written, the fetch effect never fires, whatever the page and the user |
| Profile.ShouldFetchAsWritten | src/pages/Profile.jsx:32 | the fetch guard as written; `Profile.FetchNeverFires` states it never holds |
| Profile.FetchFiresOnce | src/pages/Profile.jsx:31-36 | without the contradicting conjunct a signed-in user's profile is requested on the first run and never again |
| Profile.PickedPictureSent | src/pages/Profile.jsx:62-112 | an accepted picture is the one sent; a refused one leaves what is sent unchanged |
| Profile.UpdateRoundTrip | src/pages/Profile.jsx:38-132 | after a successful update goes through the auth slice and back into the form, the form shows the returned names with no file pending and the preview shows the returned picture's server address, or nothing |
| Profile.SyncedFormResends | src/pages/Profile.jsx:38-118 | the form refilled from a user, submitted unchanged, sends that user's fields back |
| Domain.ZeroProgress | src/pages/EnrolledCourseDetail.jsx:35-47 | the record for this course and user with every counter, list and percentage at zero |
| Domain.CheckImage | src/pages/instructor/CreateCourse.jsx:46-54 | a file is accepted exactly when it is at most 5 MB and its type starts with "image/"; a larger file gets the size message first, otherwise a non-image gets "Please upload an image file" |
| Ui.ToLogin | src/components/CourseCard.jsx:43 | a navigation to `/login` carrying the current path as `from` |
| Ui.To | src/components/CourseCard.jsx:53 | a navigation to the target carrying no `from` |
| Ui.ResponseOrErrorMessage | src/pages/instructor/ManageLessons.jsx:349-352 | the response's message if non-empty, else the error's own message if non-empty, else the fallback |

## Left out

- The categories slice: `src/features/categories/categorySlice.js` is not part of this model. The store takes that slice's reducer and initial state as parameters, so every store property holds for any categories slice.
- `fetchInstructors`: its slice is not part of this model. The catalogue page takes the instructor list as a parameter.
- redux-persist and `storage.removeItem` (browser storage). `Store.Persisted` states only which slices would be written.
- HTTP: axios, the token header and the 401 interceptor. Each reply is a parameter, and a 401 amounts to dispatching `auth/logout`, which `Store.RootReduce` models.
- The Razorpay widget and the script injection, which are a foreign library. The script load, the widget's callback and the dismissal are inputs.
- The catalogue page's effect that reads `?category=` from the URL. The handlers' URL writes are modelled (`CoursesPage.ParamsWrite`), but the effect that reads them back is not.
- Timers, scrolling, dropdown and menu open state, `FileReader`, `URL.createObjectURL` and video metadata. The rounded duration of a picked video is an input, and a picked picture's preview is the file itself.
- `FileReader` errors on the profile page, which only show a toast.
- Async interleaving of `Promise.all` and React effect ordering. Each handler is a sequential function of its inputs.
- Transient loading flags: `isLoading`, `addingLesson`, `addingVideoMap`, `quizOperations`, `submittingReview`, `quizSubmitting`. They only disable buttons while a request is pending.
- Rendering, layouts, the home page's random shuffle, date formatting and `toFixed` ratings.
- `useAuth.js` and `PaymentSuccess.jsx`, which are thin wrappers around dispatch.
- Text: case mapping and white space are ASCII only. Prices and durations are integers.
- CreateCourse.Submit: the price field is `Some(n)` for a number and `None` for an empty field. Text that is not a number is not modelled.
- CreateCourse: the store update after a successful creation belongs to the course slice and is stated by `CourseSlice.CreateAppends`, not by the page.
- Profile.Submit: takes the signed-in user, whom the protected route guarantees. The `TypeError` on `user._id` without a user is not modelled.
- StringUtils.CapitalizeName: takes a string. A missing name is handled where it is called.
- QuizForm.ChangeQuestion: treats questions as values. The source writes into the question objects it shares with the listed quiz; `ManageLessons.CancelEditAsWritten` models that write (see Findings).
- ManageLessons.UpdateQuiz: requires the edited quiz's lesson to have a list, because the page opens the editor from that list. The `TypeError` otherwise is not modelled.
- ManageLessons.DeleteQuiz: requires the lesson to have a list, for the same reason.
- ManageLessons.QuizMap: defined only when every quiz request succeeded. `ManageLessons.Load` handles a failure by keeping no quizzes at all.
- EnrolledCourse.SelectAnswer: requires a question index the page shows.
- QuizAttempts.Label: compares exactly against half the question count. The page compares JavaScript numbers, which give the same result for these integers.

## Findings

| source | as written | input that shows it | evidently intended | confidence | as-written member | corrected member |
|---|---|---|---|---|---|---|
| src/pages/CourseDetail.jsx:193-207 | a section without `videoDetails` adds `undefined`, the sum becomes NaN, and the fallback to 0 shows 0 lessons and 0 seconds for the whole course | one section with a ten-second video and one section sent without a video list | a missing list counts as empty, giving 1 lesson and 10 seconds, as the enrolled-course and lesson-management pages count | not executed; medium, since it needs a reply that omits the list | CourseDetail.MissingListZeroesTotals | CourseDetail.CorrectedTotalsAdd |
| src/pages/CourseDetail.jsx:39 | "own course" means the id is among the catalogue's last filter results, which hides the enroll button and the review form | a student filters the catalogue by a category, then opens a listed course they do not teach | own course exactly when the signed-in user teaches it, as the course card tests | not executed; high | CourseDetail.FilteredCourseHidesActions | CourseDetail.OwnCourseByInstructor |
| src/pages/Profile.jsx:31-36 | the fetch guard asks for `user?._id` and for `!user` together, so it never holds | any signed-in user opening the profile page | request the signed-in user's profile once | not executed; high | Profile.FetchNeverFires | Profile.FetchFiresOnce |
| src/pages/instructor/ManageLessons.jsx:698 | the lesson row's quiz badge reads `lesson.quiz`, which creating and deleting quizzes never update | add a lesson on the page, then create a quiz for it: the badge says 0 while one quiz is listed | the badge counts the quizzes listed under the lesson | not executed; medium, since a reload shows the server's count | ManageLessons.NewLessonBadgeStaysZero | ManageLessons.ListedCountFollowsChanges |
| src/pages/instructor/ManageLessons.jsx:79-86 | `handleQuestionChange` copies the question list but writes into the question objects, which are the edited quiz's own (the editor starts from `initialData.questions`, the quiz listed under the lesson), so closing the editor with Cancel, or after a failed update, keeps the edits in the listed quiz | open the editor on a quiz whose first question is "A", change it to "B", press Cancel, and open the editor again: it shows "B" | Cancel discards the edits, so the editor reopens on the quiz as listed | not executed; high | ManageLessons.CancelKeepsTypedText | ManageLessons.CancelDiscardsEdits |
| src/pages/instructor/CreateLesson.jsx:67 | the new lesson's id is read from the reply's top level, whereas the other page reads the same endpoint's reply at `newLesson._id` (src/pages/instructor/ManageLessons.jsx:335) | a reply whose lesson is inside `newLesson` only: every later upload is refused with "Please create a lesson first" | read the id inside `newLesson` | not executed; medium, since the reply shape is not part of this model | CreateLesson.AsWrittenLosesLesson | CreateLesson.CreatedLessonReceivesVideos |
