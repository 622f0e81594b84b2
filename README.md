# TixWix booking rules in Dafny

TixWix (the `cinemagic-hub` web app) sells tickets for movie shows, concerts
and football matches. This project models the rules its browser code applies
before anything is written to the database, and proves properties of that
model:

- how a moviegoer picks seats (a toggle capped at 10 seats) and how seat
  grids are generated and laid out;
- how the movie, concert and football pages price a booking, including promo
  codes and the "5th show free" loyalty rule;
- the concert and football quantity steppers and the football capacity
  write-back;
- the mock session (login, register, logout, booking history);
- the movie catalogue's search, genre chips and card conversion;
- the admin dialogs that add movies, concerts and showtimes, and the
  sign-in / sign-up forms.

One Dafny module stands for each source file. `Types` holds the shared
records of `src/types/index.ts`. `Text` holds ASCII versions of the string
built-ins the pages use: trim, case folding, split, `includes` and number
formatting. `Collections` holds the list operations: filter, `Set` dedupe
and subsequences.

The source changes state in several places, and there the model is a
class whose methods state the new state:

- the session (`AuthContext.Session`);
- the movie, concert and football checkouts;
- the promo box of the booking summary;
- the sign-in page;
- the showtime dialog.

Loops that fill arrays or dictionaries are methods with loop invariants,
proved equal to a specification function:

- the two seat generators;
- the row grouping of the seat map;
- the error map of the sign-in page.

Database calls, the clock and random draws are not modelled; their results
are parameters. These are:

- whether an update or insert succeeded;
- the id an insert returns;
- the public URL of an upload;
- `Date.now()` and `Math.random()`;
- zod's e-mail check.

Money is a Dafny `real`. Counts and quantities are unbounded integers.

## Model

| member | source | states |
|---|---|---|
| AuthContext.AdminUser | src/context/AuthContext.tsx:21-31 | the admin credentials log in an admin with no bookings and a monthly count of 0 |
| AuthContext.MonthlyCountDraw | src/context/AuthContext.tsx:41 | `Math.floor(Math.random() * 5)` lies between 0 and 4 |
| AuthContext.LoginUser | src/context/AuthContext.tsx:19-46 | the user logged in is an admin exactly for the admin e-mail and password; every logged-in user starts with no bookings and a count in 0..4 |
| AuthContext.LoginUserShape | src/context/AuthContext.tsx:19-46 | admin credentials give the admin user; any other pair gives a plain user with no bookings, a count in 0..4, and a name that is the e-mail's prefix before its first '@', or the whole e-mail when it has no '@' |
| AuthContext.RegisteredUser | src/context/AuthContext.tsx:50-58 | a registered user keeps the given name and e-mail, has role user, no bookings and a count of 0 |
| AuthContext.WithBooking | src/context/AuthContext.tsx:68-76 | a booking goes to the end of the history and raises the monthly count by one; id, name, e-mail, phone and role are unchanged |
| AuthContext.WithBookingsAccumulate | src/context/AuthContext.tsx:68-76 | successive bookings pile up in order, and the count rises by the number of bookings; nothing else about the user changes |
| AuthContext.Session.constructor | src/context/AuthContext.tsx:17 | the session starts with no user |
| AuthContext.Session.IsAuthenticated | src/context/AuthContext.tsx:82 | authenticated exactly when a user is present |
| AuthContext.Session.IsAdmin | src/context/AuthContext.tsx:83 | admin exactly when a user with the admin role is present, which implies authenticated |
| AuthContext.Session.Login | src/context/AuthContext.tsx:19-46 | login succeeds exactly when e-mail and password are both non-empty; on success the stored user is the one LoginUser describes, otherwise the session is unchanged |
| AuthContext.Session.Register | src/context/AuthContext.tsx:48-62 | register succeeds exactly when name, e-mail and password are all non-empty; on success the stored user is RegisteredUser, otherwise the session is unchanged |
| AuthContext.Session.Logout | src/context/AuthContext.tsx:64-66 | after logout there is no user, and the session is neither authenticated nor admin |
| AuthContext.Session.AddBooking | src/context/AuthContext.tsx:68-76 | without a user nothing happens; with a user the stored user becomes WithBooking of the old one |
| AuthPage.LoginIssues | src/pages/Auth.tsx:13-16 | the login form has no issue exactly when the e-mail is valid and the password has at least 6 characters; each failed rule is reported on its own field |
| AuthPage.RegisterIssues | src/pages/Auth.tsx:18-26 | registration has no issue exactly when name ≥ 2, e-mail valid, password ≥ 6 and the confirmation equals the password; each failed rule, the mismatch included, is reported on its own field |
| AuthPage.FieldErrors | src/pages/Auth.tsx:71-76 | the loop over the issues builds exactly the map FieldErrorsOf describes |
| AuthPage.FieldErrorsLastWins | src/pages/Auth.tsx:71-76 | the error map has a key exactly when some issue's first path element names it, and its entry is the message of the last such issue |
| AuthPage.MismatchReportedOnConfirmation | src/pages/Auth.tsx:23-26 | a mismatched confirmation is always reported on the confirmPassword field, whatever else is wrong |
| AuthPage.Page.constructor | src/pages/Auth.tsx:33-43 | the page opens in sign-in mode unless the mode parameter is "register"; all four fields are empty and there are no errors |
| AuthPage.Page.HandleChange | src/pages/Auth.tsx:51-60 | only the edited field takes the new value, and only that field's error is blanked |
| AuthPage.Page.HandleSubmit | src/pages/Auth.tsx:62-116 | a form the schema rejects fills the error map and leaves the session unchanged; an accepted form clears the errors and then logs in or registers; a successful login stores LoginUser of the e-mail and password, a successful registration stores RegisteredUser, and a refused one leaves the session user as it was |
| BookingSummary.SeatsTotalBounds | src/components/booking/BookingSummary.tsx:35-37 | with non-negative prices a seat total is non-negative and never shrinks as seats are added |
| BookingSummary.Subtotal | src/components/booking/BookingSummary.tsx:33-43 | a movie with prices sums its seat prices; a concert with a section charges price × quantity; otherwise the subtotal is 0 |
| BookingSummary.SubtotalNonNegative | src/components/booking/BookingSummary.tsx:33-43 | non-negative prices and quantity give a non-negative subtotal |
| BookingSummary.PercentageDiscountBounded | src/components/booking/BookingSummary.tsx:46-48 | a 0-100 % code on a non-negative subtotal gives a discount between 0 and the subtotal, and a larger subtotal never gives a smaller discount |
| BookingSummary.Discount | src/components/booking/BookingSummary.tsx:45-49 | no code gives 0; a fixed code gives its amount; a percentage code gives the share of the subtotal (discount × 100 = subtotal × percentage) |
| BookingSummary.ShownTotal | src/components/booking/BookingSummary.tsx:44-51 | the panel total is never negative; it is 0 on a free show, the subtotal itself on a paid show with no code and a non-negative subtotal, and never above the subtotal for a 0-100 % code |
| BookingSummary.Total | src/components/booking/BookingSummary.tsx:51 | the total is 0 on a free show and otherwise max(0, subtotal − discount); it is never negative, and never above the subtotal for a non-negative discount |
| BookingSummary.CanProceed | src/components/booking/BookingSummary.tsx:72 | a movie can proceed exactly when a seat is selected; a concert exactly when a section is chosen and the quantity is positive |
| BookingSummary.Breakdown | src/components/booking/BookingSummary.tsx:94-103 | a line is shown for a seat type exactly when the selection has seats of that type, in the order normal, deluxe, super; each holds count × price for that type |
| BookingSummary.SeatsTotalByType | src/components/booking/BookingSummary.tsx:35-37 | the seat total equals the normal, deluxe and super amounts added together |
| BookingSummary.BreakdownSumsToSubtotal | src/components/booking/BookingSummary.tsx:94-103 | the breakdown lines add up to the movie subtotal |
| BookingSummary.FindPromo | src/components/booking/BookingSummary.tsx:55 | a found code is an active table code whose upper-case form is the key; with no match, no active code has that form |
| BookingSummary.LookupPromo | src/components/booking/BookingSummary.tsx:54-55 | a found code is an active table code whose upper-case form is the trimmed, upper-cased input; with no match, no active code has that form |
| BookingSummary.LookupIgnoresCase | src/components/booking/BookingSummary.tsx:54-55 | the lookup treats typed input the same whatever its letter case |
| BookingSummary.Summary.constructor | src/components/booking/BookingSummary.tsx:30-31 | the promo box starts empty with no applied code |
| BookingSummary.Summary.SetInput | src/components/booking/BookingSummary.tsx:30 | typing changes only the box |
| BookingSummary.Summary.ApplyPromo | src/components/booking/BookingSummary.tsx:53-64 | a miss keeps the applied code and reports nothing; a hit applies that code and reports its discount on the current subtotal |
| BookingSummary.Summary.RemovePromo | src/components/booking/BookingSummary.tsx:66-70 | removing clears the code and the box and reports a discount of 0 |
| ConcertCard.LowestPrice | src/components/concerts/ConcertCard.tsx:17 | there is a lowest price exactly when the concert has sections |
| ConcertCard.LowestPriceIsMinimum | src/components/concerts/ConcertCard.tsx:17 | the lowest price is at most every section's price and is the price of some section |
| ConcertCard.LowestPriceIgnoresOrder | src/components/concerts/ConcertCard.tsx:17 | reordering the sections does not change the lowest price |
| ConcertCard.AddingSectionNeverRaises | src/components/concerts/ConcertCard.tsx:17 | adding a section never raises the lowest price |
| ConcertDetail.FinalPrice | src/pages/ConcertDetail.tsx:43-44 | a free show costs 0 whatever the quantity; otherwise the price is max(0, subtotal − discount) |
| ConcertDetail.FinalPriceBounds | src/pages/ConcertDetail.tsx:43-44 | with non-negative inputs the final price lies between 0 and the subtotal, and equals subtotal − discount when the discount fits |
| ConcertDetail.BookingIdFor | src/pages/ConcertDetail.tsx:47 | a booking id is "TIX" followed by 1 to 8 digits |
| ConcertDetail.BookingIdShape | src/pages/ConcertDetail.tsx:47 | for a clock of 8 or more digits the id has 11 characters, ending in the last 8 digits of the clock |
| ConcertDetail.ConcertBookingFor | src/pages/ConcertDetail.tsx:51-63 | the recorded booking is a confirmed concert booking with the section and quantity; its total is the subtotal and its final price is FinalPrice |
| ConcertDetail.ReceiptTotal | src/pages/ConcertDetail.tsx:194 | the receipt total is never above the booked final price, and equals it exactly on a free show or when the discount does not exceed the subtotal |
| ConcertDetail.ReceiptTotalAgreesWhenDiscountFits | src/pages/ConcertDetail.tsx:194 | when the discount does not exceed the subtotal, the receipt shows the final price |
| ConcertDetail.ReceiptTotalGoesNegative | src/pages/ConcertDetail.tsx:194 | the 90 % code PRIYORCHOTOBHAI applied to two vip tickets of the first mock concert (5000 each) reports 9000; after "−" takes the quantity to 1 the booking records 0 but the receipt shows −4000 |
| ConcertDetail.ReceiptFlipsToFreeOnFourthBooking | src/pages/ConcertDetail.tsx:194 | a user with 3 bookings pays 100; the receipt, recomputed after the booking raised the count, shows 0 |
| ConcertDetail.ReceiptTotalCorrected | src/pages/ConcertDetail.tsx:194 | with the flag from booking time, the receipt is never negative and is 0 exactly for a free show or a discount covering the tickets |
| ConcertDetail.ReceiptCorrectedMatchesBooking | src/pages/ConcertDetail.tsx:194 | the corrected receipt shows the final price recorded in the booking |
| ConcertDetail.ConcertBookingListing | src/pages/Profile.tsx:158-166 | a recorded concert booking is listed as FREE exactly on a free show or when the discount covers the tickets, and shows a saving exactly when the discount is positive |
| ConcertDetail.Checkout.constructor | src/pages/ConcertDetail.tsx:24-28 | no section, quantity 1, no discount, no receipt |
| ConcertDetail.Checkout.SelectSection | src/components/booking/ConcertSectionSelector.tsx:54-60 | a sold-out section is ignored; any other becomes the selection |
| ConcertDetail.Checkout.SetQuantity | src/components/booking/ConcertSectionSelector.tsx:90-97 | the stepper's value becomes the quantity; nothing else changes |
| ConcertDetail.Checkout.SetDiscount | src/pages/ConcertDetail.tsx:171 | a reported discount is stored; nothing else changes |
| ConcertDetail.Checkout.HandleProceed | src/pages/ConcertDetail.tsx:33-67 | without a user it only redirects; without a section or concert it does nothing; otherwise it sets the id, shows the receipt and appends ConcertBookingFor, priced with the user's free-show flag |
| ConcertForm.ValidConcertForm | src/components/admin/ConcertForm.tsx:14-30 | the form is accepted exactly when the schema rejects none of its fields (ConcertErrors lists the rejected ones in field order) |
| ConcertForm.Sections | src/components/admin/ConcertForm.tsx:112-117 | exactly four sections, vip, front, middle and back in that order, with the form's prices and capacities, fully available and tied to the concert id |
| ConcertForm.SectionsOfValidForm | src/components/admin/ConcertForm.tsx:112-117 | from a valid form every section has price and capacity ≥ 1, and the four names are distinct |
| ConcertForm.ConcertRowFor | src/components/admin/ConcertForm.tsx:97-105 | the concert row carries the form's fields and the poster's public URL |
| ConcertForm.Submit | src/components/admin/ConcertForm.tsx:70-137 | no poster refuses; upload, concert insert and section insert each can fail in turn; success creates the concert row and the four sections under `concerts/<clock>.<extension>` |
| ConcertForm.CreatedSectionsBelongToConcert | src/components/admin/ConcertForm.tsx:113-116 | every created section points at the inserted concert and starts fully available |
| ConcertSectionSelector.SectionName | src/components/booking/ConcertSectionSelector.tsx:31-39 | the four known names map to their labels; any other name is shown unchanged |
| ConcertSectionSelector.SectionClick | src/components/booking/ConcertSectionSelector.tsx:54-60 | a click selects the section exactly when it is not sold out |
| ConcertSectionSelector.Decrement | src/components/booking/ConcertSectionSelector.tsx:90 | "−" lowers the quantity by one but never below 1 |
| ConcertSectionSelector.Increment | src/components/booking/ConcertSectionSelector.tsx:97 | "+" raises the quantity by one but never above the available capacity |
| ConcertSectionSelector.DisplayedMax | src/components/booking/ConcertSectionSelector.tsx:105 | the maximum shown is the smaller of 10 and the available capacity |
| ConcertSectionSelector.SteppersStayWithinCapacity | src/components/booking/ConcertSectionSelector.tsx:90-97 | from 1 ≤ q ≤ capacity, both buttons keep the quantity in that range, "−" not above and "+" not below the old value |
| ConcertSectionSelector.IncrementPassesDisplayedMax | src/components/booking/ConcertSectionSelector.tsx:97-105 | with 20 places left "+" takes 10 to 11 while the page says the maximum is 10 |
| ConcertSectionSelector.IncrementCorrected | src/pages/FootballDetail.tsx:227 | the capped "+" never passes the displayed maximum |
| ConcertSectionSelector.CorrectedSteppersStayWithinDisplayedMax | src/pages/FootballDetail.tsx:220-227 | with capacity ≥ 1 the capped buttons keep 1 ≤ q ≤ min(10, capacity) |
| FootballDetail.FinalPrice | src/pages/FootballDetail.tsx:86-87 | the final price is max(0, price × quantity − discount) |
| FootballDetail.BookingRowFor | src/pages/FootballDetail.tsx:92-102 | the inserted row is a confirmed football booking with the section name, quantity, total and final price |
| FootballDetail.FinalPriceBounds | src/pages/FootballDetail.tsx:86-87 | with non-negative inputs the final price lies between 0 and the total, and equals total − discount when the discount fits |
| FootballDetail.PanelTotalIsCharge | src/pages/FootballDetail.tsx:86-87 | the summary panel shows exactly what the page charges |
| FootballDetail.CapacityWriteBackNonNegative | src/pages/FootballDetail.tsx:110-113 | within the stepper bounds, the capacity written back is non-negative and smaller than before |
| FootballDetail.Page.constructor | src/pages/FootballDetail.tsx:29-31 | no section, quantity 1, no discount, no bookings |
| FootballDetail.Page.SelectSection | src/pages/FootballDetail.tsx:186-191 | a sold-out section is ignored; any other is selected and the quantity reset to 1 |
| FootballDetail.Page.Decrement | src/pages/FootballDetail.tsx:220 | "−" gives max(1, q − 1) and keeps the quantity within the displayed bounds |
| FootballDetail.Page.Increment | src/pages/FootballDetail.tsx:227 | "+" gives min(min(10, available), q + 1) and keeps the quantity within the displayed bounds |
| FootballDetail.Page.SetDiscount | src/pages/FootballDetail.tsx:245 | a reported discount is stored; nothing else changes |
| FootballDetail.Page.HandleBooking | src/pages/FootballDetail.tsx:78-117 | nothing is booked without sign-in, a section, a match and a backend user; a failed insert leaves bookings and capacity alone; a booking appends BookingRowFor and then writes available − quantity, which stays non-negative |
| MockData.RowLabel | src/data/mockData.ts:156-164 | rows 0-25 are labelled A-Z; later rows render as "undefined" |
| MockData.GenerateSeats | src/data/mockData.ts:154-172 | the nested loops produce exactly the grid Grid describes |
| MockData.GridSize | src/data/mockData.ts:154-172 | the grid has rows × seatsPerRow seats |
| MockData.GridAt | src/data/mockData.ts:158-168 | in row-major order, position r × seatsPerRow + j holds seat j + 1 of row r, typed super/deluxe/normal by row and either sold or available |
| MockData.GridRowLetters | src/data/mockData.ts:163 | with at most 26 rows, every id starts with one of the first `rows` letters |
| MockData.SeatIdInjective | src/data/mockData.ts:163 | within 26 rows, a seat id determines its row and number |
| MockData.GridIdsDistinct | src/data/mockData.ts:154-172 | with at most 26 rows no two seats share an id |
| MockData.IdsCollideBeyondTwentySixRows | src/data/mockData.ts:163 | beyond 26 rows two different seats get the same id |
| MockData.Halls | src/data/mockData.ts:144-152 | every movie hall has totalSeats = rows × seatsPerRow, and no hall has more than 26 rows |
| MockData.Concerts | src/data/mockData.ts:90-142 | every mock section has 0 ≤ available ≤ total capacity and a positive price, and each concert has four sections |
| MockData.ShowtimeGrids | src/data/mockData.ts:174-238 | each mock showtime generates its grid with the rows and seats per row of an existing movie hall |
| MockData.ShowtimeGridsFitHalls | src/data/mockData.ts:174-238 | each showtime offers as many seats as its hall holds, with distinct ids |
| MockData.PromoCodes | src/data/mockData.ts:240-244 | every code is active, non-negative and upper-case; percentages are at most 100; codes are distinct |
| MovieDetail.ToggleSeat | src/pages/MovieDetail.tsx:180-192 | a selected seat is removed; an unselected one is appended at the end, unless 10 are already selected, in which case nothing changes |
| MovieDetail.ToggleOffRemovesEveryCopy | src/pages/MovieDetail.tsx:183-185 | toggling off removes every entry with that id and keeps all the others |
| MovieDetail.ToggleKeepsSelectionValid | src/pages/MovieDetail.tsx:180-192 | at most 10 seats with distinct ids stay so under any toggle |
| MovieDetail.SelectThenDeselect | src/pages/MovieDetail.tsx:183-190 | selecting then deselecting an unselected seat, with room left, gives back the original list |
| MovieDetail.IsFreeShow | src/pages/MovieDetail.tsx:175 | a show is free exactly when a user with 4 or more bookings this month is present |
| MovieDetail.FinalPrice | src/pages/MovieDetail.tsx:209-223 | the price is max(0, subtotal − discount), with the first two seats' price also taken off on a free show; it is never negative |
| MovieDetail.FinalPriceBounds | src/pages/MovieDetail.tsx:209-223 | with non-negative prices and discount the price is at most the subtotal, and a free show never costs more |
| MovieDetail.FreeShowOfTwoSeatsCostsNothing | src/pages/MovieDetail.tsx:215-220 | a free show with at most two seats costs 0 |
| MovieDetail.FreeShowChargesLaterSeats | src/pages/MovieDetail.tsx:215-220 | on a free show, the seats after the first two are charged in full |
| MovieDetail.ReceiptMatchesBooking | src/pages/MovieDetail.tsx:482-497 | with the flag the booking was priced with, the receipt shows the booked final price; it is marked free exactly on a free show of at most two seats; the free-seat count is min(n, 2) on a free show and 0 otherwise |
| MovieDetail.ReceiptFor | src/pages/MovieDetail.tsx:482-497 | with the flag the booking was priced with, the receipt total is the booked final price; at most two seats, and no more than selected, are counted free; the receipt is marked free only on a free show |
| MovieDetail.ReceiptFlipsAfterBooking | src/pages/MovieDetail.tsx:482-497 | the receipt re-reads the free-show flag after the booking raised the count: with the page's test a one-seat booking at count 3 is charged 100 and its receipt shows 0; with the profile's test the free booking at count 4 is charged 0 and its receipt shows 100 |
| MovieDetail.IsFreeShowCorrected | src/pages/Profile.tsx:21 | the free-show test the profile page uses |
| MovieDetail.FreeShowTriggersDisagree | src/pages/MovieDetail.tsx:175 | a user with 5 bookings gets a free show here while the profile says 4 more are needed |
| MovieDetail.CorrectedFreeShowAgreesWithProfile | src/pages/Profile.tsx:20-21 | the corrected test holds exactly when the profile shows no remaining bookings |
| MovieDetail.SummaryShowsZeroWhileThirdSeatIsCharged | src/components/booking/BookingSummary.tsx:51 | on a free show of three seats the panel shows 0 while the page charges the third seat |
| MovieDetail.SummaryTotalCorrectedMatchesBooking | src/pages/MovieDetail.tsx:214-223 | the corrected panel total equals the booked final price, with the applied code's discount on the current seats |
| MovieDetail.StoredDiscountGoesStale | src/components/booking/BookingSummary.tsx:59 | a 10 % code applied on one seat of 100 still deducts 10 after a second seat is added, where the panel shows 20 |
| MovieDetail.MarkSeats | src/pages/MovieDetail.tsx:226-230 | the update sets exactly the listed seats to the new status and leaves the others as they were |
| MovieDetail.SellThenRelease | src/pages/MovieDetail.tsx:226-271 | selling then releasing the same seats leaves them available |
| MovieDetail.SeatIds | src/pages/MovieDetail.tsx:226 | the id list follows the selection position by position |
| MovieDetail.MovieBookingFor | src/pages/MovieDetail.tsx:239-250 | the saved booking is a confirmed movie booking with the selected seats, the subtotal, the discount and FinalPrice |
| MovieDetail.MovieBookingListing | src/pages/Profile.tsx:158-166 | a recorded movie booking is listed as FREE on a free show of at most two seats, on a free show of more seats exactly when the discount covers the later seats, on a paid show exactly when the discount covers the seats; it shows a saving exactly when the discount is positive |
| MovieDetail.Checkout.constructor | src/pages/MovieDetail.tsx:74-77 | no seats selected, no discount, no receipt |
| MovieDetail.Checkout.SelectSeat | src/pages/MovieDetail.tsx:180-192 | the selection becomes ToggleSeat of the old one; nothing else changes |
| MovieDetail.Checkout.SetDiscount | src/pages/MovieDetail.tsx:461 | the reported discount is stored; nothing else changes |
| MovieDetail.Checkout.HandleProceed | src/pages/MovieDetail.tsx:194-273 | as written: it marks the selected seats sold, appends the booking to the session, then always sets the same seats back to available and shows no receipt |
| MovieDetail.Checkout.HandleProceedCorrected | src/pages/MovieDetail.tsx:194-273 | with a save that returns an id: a saved booking keeps its seats sold, is recorded under that id, writes one booking-seat row per seat and shows the receipt; a failed save records nothing and releases the seats |
| Movies.AllGenres | src/pages/Movies.tsx:57 | a genre is listed exactly when some movie has it |
| Movies.GenresListEachOnce | src/pages/Movies.tsx:56-59 | each genre of the catalogue appears exactly once, in order of first appearance |
| Movies.FilteredMoviesExact | src/pages/Movies.tsx:61-69 | the list shown keeps the catalogue's order and holds exactly the movies matching both the case-insensitive search and the genre filter |
| Movies.ClearFilters | src/pages/Movies.tsx:77-80 | clearing gives an empty query and no selected genre |
| Movies.ClearedFiltersShowAll | src/pages/Movies.tsx:61-69 | with the filters cleared every movie is shown |
| Movies.ToggleGenre | src/pages/Movies.tsx:71-75 | a selected genre is removed, any other appended |
| Movies.ToggleGenreFlips | src/pages/Movies.tsx:71-75 | a toggle flips only the toggled genre and keeps the chips distinct |
| Movies.ToggleGenreTwice | src/pages/Movies.tsx:71-75 | toggling twice restores the same set of genres, and the very same list when the genre was unselected |
| Movies.TransformMovie | src/pages/Movies.tsx:83-97 | the card carries the movie's fields, and a missing rating becomes 0 |
| MovieForm.ValidMovieForm | src/components/admin/MovieForm.tsx:15-24 | the form is accepted exactly when the schema rejects none of its fields (MovieErrors lists the rejected ones in field order) |
| MovieForm.SplitTrim | src/components/admin/MovieForm.tsx:88-89 | each item is a trimmed piece of the comma split |
| MovieForm.SplitTrimShape | src/components/admin/MovieForm.tsx:88-89 | there is one item more than there are commas; no item holds a comma or surrounding space; empty pieces are kept |
| MovieForm.Extension | src/components/admin/MovieForm.tsx:64 | the extension is the text after the last '.', or the whole name without one; it never holds a '.' |
| MovieForm.ExtensionOfPosterPath | src/components/admin/MovieForm.tsx:64-65 | the stored path keeps the uploaded file's extension |
| MovieForm.MovieRowFor | src/components/admin/MovieForm.tsx:79-92 | the inserted row has the form's fields, split genre and cast lists, the public URL and rating 0 |
| MovieForm.Submit | src/components/admin/MovieForm.tsx:54-108 | no poster refuses; a failed upload or insert stops with that path; success creates MovieRowFor under `movies/<clock>.<extension>` |
| MovieForm.CreatedMovieShape | src/components/admin/MovieForm.tsx:55-91 | a created movie has at least one genre and one cast item, rating 0, and a poster under "movies/" |
| Profile.JsRem | src/pages/Profile.tsx:20 | JavaScript's `%`: the usual remainder for non-negative counts, and always strictly between −n and n |
| Profile.LoyaltyCounters | src/pages/Profile.tsx:20-21 | for a count ≥ 0: 0 to 4 bookings remain; the free show is earned exactly when count mod 5 is 4, which is when none remain; otherwise 1 to 4 remain and the bar is at most 75 % |
| Profile.EarnedEveryFifth | src/pages/Profile.tsx:20-21 | the reward and the remaining count repeat every five bookings |
| Profile.RemainingForFreeShow | src/pages/Profile.tsx:20 | for a count ≥ 0, 0 to 4 bookings remain, and count plus remaining is 4 more than a multiple of 5 |
| Profile.HasEarnedFreeShow | src/pages/Profile.tsx:21 | for a count ≥ 0, the free show is earned exactly when count mod 5 is 4 |
| Profile.ProgressWidth | src/pages/Profile.tsx:70 | the bar is 25 % per booking in the current round of five: 100 minus 25 per remaining booking, and full exactly when the free show is earned |
| SeatMap.GetSeatStatus | src/components/booking/SeatMap.tsx:22-26 | a sold seat shows as sold whatever the selection; otherwise it is selected exactly when its id is in the selection |
| SeatMap.HandleSeatClick | src/components/booking/SeatMap.tsx:50-53 | a click passes the seat on exactly when it is not sold |
| SeatMap.SeatsByRow | src/components/booking/SeatMap.tsx:56-62 | the grouping loop keys the rows in order of first appearance and gives each row exactly its seats, in their original order |
| SeatMap.GroupingPartitions | src/components/booking/SeatMap.tsx:56-62 | a seat is in a row's group exactly when it is in that row, and each group keeps the original order |
| SeatMap.RowOrder | src/components/booking/SeatMap.tsx:56-62 | rows are listed once each, in order of their first seat |
| SeatMap.LayoutShape | src/components/booking/SeatMap.tsx:106-111 | the row keeps its seats in order and has one aisle gap, at the given index, when the row is that long, and none otherwise |
| SeatMap.FullRowGap | src/components/booking/SeatMap.tsx:106-111 | a full row has exactly one gap, before seat position ⌊seatsPerRow / 2⌋ |
| ShowtimeForm.ValidForm | src/components/admin/ShowtimeForm.tsx:14-20 | the form is accepted exactly when the schema rejects none of its fields (ShowtimeErrors lists the rejected ones in field order) |
| ShowtimeForm.RowCount | src/components/admin/ShowtimeForm.tsx:88 | `slice(0, rows)` keeps min(rows, 26) letters, and a negative count drops letters from the end |
| ShowtimeForm.RowLetters | src/components/admin/ShowtimeForm.tsx:88 | the rows are the first letters from 'A', in order |
| ShowtimeForm.IndexOf | src/components/admin/ShowtimeForm.tsx:94 | `indexOf` gives the first position of the letter, or −1 |
| ShowtimeForm.GenerateSeats | src/components/admin/ShowtimeForm.tsx:86-109 | the nested loops produce exactly the seats HallSeats describes |
| ShowtimeForm.GenerateRow | src/components/admin/ShowtimeForm.tsx:91-108 | the inner loop produces exactly one row's seats, numbered from 1 and typed by the row's index |
| ShowtimeForm.HallSeatsCount | src/components/admin/ShowtimeForm.tsx:88-91 | a hall gets min(rows, 26) × seats_per_row seats |
| ShowtimeForm.HallSeatsAt | src/components/admin/ShowtimeForm.tsx:90-107 | in row-major order, position r × n + j holds seat j + 1 of letter 'A' + r, typed by row index, available, and for the showtime |
| ShowtimeForm.SeatGridShape | src/components/admin/ShowtimeForm.tsx:101-107 | every seat is available, carries the showtime id, has a number in 1..n and one of the hall's letters |
| ShowtimeForm.HallSeatsPairsDistinct | src/components/admin/ShowtimeForm.tsx:88-107 | no two seats share a (row letter, seat number) pair |
| ShowtimeForm.FindHall | src/components/admin/ShowtimeForm.tsx:146 | `find` returns the first hall with the id, or nothing when none has it |
| ShowtimeForm.Dialog.constructor | src/components/admin/ShowtimeForm.tsx:42-46 | no movie or hall chosen and the dialog closed |
| ShowtimeForm.Dialog.Submit | src/components/admin/ShowtimeForm.tsx:115-161 | invalid data, a missing movie or hall, and a failed insert each stop; seats are generated only for a hall among the loaded ones; success resets the choices and closes the dialog |

## Left out

- Database and storage calls are not modelled. The outcomes the pages check are parameters: whether an update, insert or upload succeeded, the returned ids and the public URL. Three writes whose outcome the pages ignore are assumed to succeed; they are listed below.
- MovieDetail.Checkout.HandleProceedCorrected: the `booking_seats` insert (src/pages/MovieDetail.tsx:262) is assumed to succeed, so `bookingSeatRows` always receives one row per seat; the page ignores a failure and shows the receipt anyway.
- MovieDetail.Checkout.HandleProceed and MovieDetail.Checkout.HandleProceedCorrected: the seat revert (src/pages/MovieDetail.tsx:268-271) is assumed to succeed, so the listed seats always become available again; the page ignores a failure.
- FootballDetail.Page.HandleBooking: the capacity write-back (src/pages/FootballDetail.tsx:110-113) is assumed to succeed, so the section always records available − quantity; the page ignores a failure.
- `Date.now()`, `new Date().toISOString()` and `Math.random()` are not modelled. They are parameters, and the clock is a non-negative integer.
- The mock seat generator's `Math.random() < 0.3` sold test is a parameter function of row and number.
- zod's e-mail check is a boolean parameter.
- Case folding and trimming cover ASCII only. Locale formatting (`toLocaleString`, date formatting) is left out.
- Money is a real number, so JavaScript's floating-point rounding of `(subtotal * d) / 100` is not modelled.
- Concurrency is left out: the unguarded sell-then-save of seats and the football capacity write from a stale snapshot are modelled as one sequential run.
- Toasts, navigation, `document.title`, loading flags and React re-render timing are left out.
- The 3D stadium, the display-only components, routing, the generated Supabase types and the admin dashboard's chart sums hold no booking rule, so they are not part of this model.
- TicketReceipt only renders the values its callers pass in. Those values are modelled on the calling pages (MovieDetail.ReceiptMatchesBooking, ConcertDetail.ReceiptTotal).
- The section colour helper of the concert selector (`getSectionColor`) only picks CSS classes, so it is not modelled.
- SeatMap.SeatsByRow: `Object.entries` lists integer-like keys first in ascending order. The model assumes row labels are not integer-like, which holds for the letters A-Z the generators produce.
- ConcertCard.LowestPrice: `Math.min()` of no prices is `Infinity`; the model returns None for a concert without sections.
- MockData.RowLabel: past 26 rows `rowLabels[r]` is the value `undefined`, which the id's template string renders as "undefined"; the model stores the text "undefined" as the row too.
- ConcertDetail.Checkout.SelectSection: the concert page does not reset the quantity when another section is chosen, and the model keeps that.
- ConcertForm.Submit: a failed section insert leaves the concert row already written. The model reports this as `SectionsFailed` and does not roll it back.
- MovieDetail.Checkout.HandleProceedCorrected: the receipt there is still recomputed from the session after the booking is recorded. Only the concert receipt's re-read of the free-show flag is corrected (ConcertDetail.ReceiptTotalCorrected).
- MovieDetail.ReceiptFor: it takes the free-show flag as a parameter and is stated for the flag the booking was priced with. The page's receipt reads `isFreeShow` again after `addBooking` raised the count, so it can show a different total; MovieDetail.ReceiptFlipsAfterBooking gives both directions.
- MovieDetail.ReceiptMatchesBooking: it holds when the receipt uses the booking's flag, which the page's receipt does not (see MovieDetail.ReceiptFor above).

## Findings

| source | as written | input that shows it | evidently intended | confidence | as-written member | corrected member |
|---|---|---|---|---|---|---|
| src/pages/MovieDetail.tsx:239-273, src/context/AuthContext.tsx:11, 68-76 | `addBooking` returns nothing, so the "booking failed" branch always runs: the seats are set back to available and no receipt is shown, although the booking is already in the user's history | any signed-in user with one selected seat whose seat update succeeds | a saved booking keeps its seats sold and shows the receipt; a failed save releases them and records nothing | not executed | MovieDetail.Checkout.HandleProceed | MovieDetail.Checkout.HandleProceedCorrected |
| src/components/booking/ConcertSectionSelector.tsx:97, 105 | "+" is capped at the available capacity only | 20 places left and quantity 10: "+" gives 11 while the page says "Max 10" | cap at min(10, capacity), as the football page does | not executed | ConcertSectionSelector.IncrementPassesDisplayedMax | ConcertSectionSelector.CorrectedSteppersStayWithinDisplayedMax |
| src/pages/ConcertDetail.tsx:194 | the receipt total is price × quantity − discount with no clamp | the 90 % code PRIYORCHOTOBHAI applied to two vip tickets (5000 each) reports 9000; "−" then takes the quantity to 1: booked at 0, receipt shows −4000 | the receipt shows the booked final price | not executed | ConcertDetail.ReceiptTotalGoesNegative | ConcertDetail.ReceiptCorrectedMatchesBooking |
| src/pages/ConcertDetail.tsx:31, 194 | the receipt re-reads the free-show flag after `addBooking` raised the count | a user with 3 bookings buys one ticket at 100: charged 100, receipt shows 0 | the receipt uses the flag the booking was priced with | not executed | ConcertDetail.ReceiptFlipsToFreeOnFourthBooking | ConcertDetail.ReceiptTotalCorrected |
| src/pages/MovieDetail.tsx:175, src/pages/ConcertDetail.tsx:31 | a show is free for every booking count ≥ 4 | count 5: free on the booking pages, while the profile page says 4 more shows are needed | free exactly on the booking the profile announces (count mod 5 = 4) | not executed | MovieDetail.FreeShowTriggersDisagree | MovieDetail.CorrectedFreeShowAgreesWithProfile |
| src/components/booking/BookingSummary.tsx:51 | the panel shows 0 for any free show | free show, three seats, third seat priced above 0: the panel shows 0 and the page charges the third seat | the panel shows what the page books (two free seats) | not executed | MovieDetail.SummaryShowsZeroWhileThirdSeatIsCharged | MovieDetail.SummaryTotalCorrectedMatchesBooking |
| src/components/booking/BookingSummary.tsx:59 | a percentage discount is reported once, on the subtotal at apply time | 10 % code applied with one seat of 100, then a second seat of 100: 10 is deducted, the panel shows 20 | the discount follows the current subtotal | not executed | MovieDetail.StoredDiscountGoesStale | MovieDetail.Checkout.HandleProceedCorrected |
