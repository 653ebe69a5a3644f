# Receivables: a verified model of the cart, credit-limit and checkout domain

This project models the domain logic of a receivables back end. It is written in Dafny and its properties are proved.

A company registers with a monthly revenue and a business segment. From these it gets a credit limit:

- zero below 10000;
- half the revenue up to 50000;
- 55 % / 60 % up to 100000 (Services / Products);
- 60 % / 65 % above that.

Its invoices can be put into a per-company cart. The cart's gross total may never exceed the credit limit. A checkout prices every invoice in the cart with an anticipation discount: the gross value divided by 1.0465 raised to (days to due date) / 30, rounded to cents half away from zero. Invoices not yet due are passed through unchanged.

The CNPJ (the Brazilian company registration number) of a new company is validated by an ordered chain of checks in which the first failure wins:

1. present;
2. digits only;
3. fourteen digits;
4. not all digits equal;
5. the two mod-11 check digits.

The model is organised as the program is:

- `Common`: identifiers, typed failures, the segment and instants with their calendar date.
- `CreditLimitCalculator`, `AnticipationCalculator`: the two pure calculators.
- `CompanyRequest` (the CNPJ chain; the check-digit computation is a method with the source's two loops) and `UpdateInvoiceRequest`: the request validators.
- `InvoiceEntity`, `CompanyEntity`: the entities, as classes whose methods update their fields in place.
- `Persistence`: the database context, as a class holding the company map and the invoice table, with the store invariant `Valid()`:
  - company keys are their ids;
  - invoice ids are unique;
  - every invoice belongs to a stored company.
- `InvoiceQueries`: the LINQ-style queries the repositories share:
  - lookup by id;
  - the in-cart filter;
  - ordering by number (an insertion sort, proved sorted and a permutation);
  - sums.
- `InvoiceRepository`, `CartRepository`: the two repositories.
- `CartService`, `CheckoutService`, `CompaniesService`, `InvoicesService`: the services.
  - Each check-then-mutate operation is a method on the context.
  - Its ensures clause ties it to a pure function that lists the checks in the source's order.

The central invariant is `CartRepository.CartsWithinLimits`: no company's in-cart total exceeds its credit limit. It is preserved by:

- a successful cart admission;
- a removal;
- invoice creation, since a new invoice is not in any cart;
- invoice update, since an invoice in a cart cannot be edited;
- company registration, since a new company has no invoices and a non-negative limit.

While it holds, a checkout is never refused for the credit limit.

Numbers are exact: `decimal` is `real` and integers are unbounded. An instant is a tick count. Its calendar date is the tick count divided by the ticks per day.

`Math.Pow` is computed on `double` in the source. Here it is a function parameter. The lemmas that need facts about it (positive, at least 1, monotone in the exponent) state them as preconditions.

The current time (`DateTime.UtcNow`) and the fresh `Guid` of a new entity are parameters.

## Model

| member | source | states |
|---|---|---|
| Common.DayNumber | receivables/Domain/Services/AnticipationCalculator.cs:9 | The calendar date of an instant is the whole day that contains it: day × ticks-per-day ≤ ticks < (day + 1) × ticks-per-day. |
| CreditLimitCalculator.Calculate | receivables/Domain/Services/CreditLimitCalculator.cs:24-38 | For a non-negative revenue, the limit lies between 0 and 0.65 × revenue, whatever the segment. |
| CreditLimitCalculator.CalculateIsRateTimesRevenue | receivables/Domain/Services/CreditLimitCalculator.cs:13-38 | For Services and Products, the switch equals revenue times the rate of an independent one-row-per-bracket table. |
| CreditLimitCalculator.BelowMinimumIsZero | receivables/Domain/Services/CreditLimitCalculator.cs:26-27 | Below 10000 the limit is 0 for every segment. |
| CreditLimitCalculator.Bracket1IsHalf | receivables/Domain/Services/CreditLimitCalculator.cs:31 | From 10000 to 50000, both ends included, the limit is half the revenue in every segment. |
| CreditLimitCalculator.Bracket2Rates | receivables/Domain/Services/CreditLimitCalculator.cs:32-33 | Above 50000 and up to 100000: 0.55 × revenue for Services, 0.60 × revenue for Products. |
| CreditLimitCalculator.Bracket3Rates | receivables/Domain/Services/CreditLimitCalculator.cs:34-35 | Above 100000: 0.60 × revenue for Services, 0.65 × revenue for Products. |
| CreditLimitCalculator.FallbackOnlyForUnnamedSegments | receivables/Domain/Services/CreditLimitCalculator.cs:29-37 | From 10000 up, the limit is 0 exactly when the segment is neither named value and revenue > 50000. So the `_ => 0` arm is unreachable for Services and Products. |
| CreditLimitCalculator.CalculateMonotone | receivables/Domain/Services/CreditLimitCalculator.cs:24-38 | For a named segment, a larger revenue never gives a smaller limit. |
| CreditLimitCalculator.ProductsAtLeastServices | receivables/Domain/Services/CreditLimitCalculator.cs:29-37 | At equal revenue, Products never gets less than Services. |
| CreditLimitCalculator.BoundaryValues | receivables.Api.Tests/CreditLimitCalculatorTests.cs:15-96 | The boundary cases of the unit tests: 9999.99, 10000, 50000, 50001, 100000 and 100001 in both segments. |
| AnticipationCalculator.Days | receivables/Domain/Services/AnticipationCalculator.cs:9 | `(dueDate.Date - now.Date).Days`: the difference of the two calendar day numbers. It has no contract of its own; NetValueIgnoresTimeOfDay and ValidateIgnoresTimeOfDay state what follows from it. |
| AnticipationCalculator.Round2 | receivables/Domain/Services/AnticipationCalculator.cs:16 | `decimal.Round(x, 2, MidpointRounding.AwayFromZero)`. It has no contract of its own; the three Round2 lemmas below state its meaning. |
| AnticipationCalculator.CalculateNetValue | receivables/Domain/Services/AnticipationCalculator.cs:7-17 | Not yet due (days ≤ 0): exactly the gross. Due later: a whole number of cents within half a cent of gross / Pow(1.0465, days / 30). |
| AnticipationCalculator.Round2IsNearestCentAwayFromZero | receivables/Domain/Services/AnticipationCalculator.cs:16 | The rounding gives a whole number of cents at most half a cent away. A tie goes away from zero. |
| AnticipationCalculator.Round2OfCents | receivables/Domain/Services/AnticipationCalculator.cs:16 | A value that is already whole cents is left unchanged by the rounding. |
| AnticipationCalculator.Round2Monotone | receivables/Domain/Services/AnticipationCalculator.cs:16 | The rounding preserves order. |
| AnticipationCalculator.NetValueIgnoresTimeOfDay | receivables/Domain/Services/AnticipationCalculator.cs:9 | The net value depends only on the calendar dates of the due date and of now. |
| AnticipationCalculator.NotYetDueIsGross | receivables/Domain/Services/AnticipationCalculator.cs:11 | Due today or earlier: the gross value is returned exactly, unrounded. |
| AnticipationCalculator.DueLaterIsDiscountedToCents | receivables/Domain/Services/AnticipationCalculator.cs:13-16 | Due later: gross / Pow(1.0465, days / 30), rounded to a whole number of cents within half a cent. |
| AnticipationCalculator.NetValueAtMostGross | receivables/Domain/Services/AnticipationCalculator.cs:11-16 | If the power is at least 1, a non-negative gross value in whole cents has a net value between 0 and the gross. |
| AnticipationCalculator.SubCentGrossCanRoundUp | receivables/Domain/Services/AnticipationCalculator.cs:13-16 | The whole-cents hypothesis is needed: a gross value of 0.009 due tomorrow is quoted at 0.01. |
| AnticipationCalculator.NetValueDecreasesWithDays | receivables/Domain/Services/AnticipationCalculator.cs:13-16 | If the power is monotone, a later due date never gives a larger net value. |
| AnticipationCalculator.NetValueAntitoneInDays | receivables/Domain/Services/AnticipationCalculator.cs:9-16 | If the power is at least 1 and monotone, a non-negative gross in whole cents never gets a larger net value from a later due date, across the step from "not yet due" to "due later" as well. |
| AnticipationCalculator.RoundsToTwoPlacesExample | receivables.Api.Tests/AnticipationCalculatorTests.cs:44-57 | The test's input, 1234.567 due 2024-02-15 priced on 2024-01-15 (31 days), gives a whole number of cents within half a cent of 1234.567 / Pow(1.0465, 31/30). |
| AnticipationCalculator.ThirtyDaysExample | receivables/Domain/Services/AnticipationCalculator.cs:13-16 | An exponent of exactly 1 (30 days): 1000 is worth 955.57 when Pow(1.0465, 1) = 1.0465. |
| CompanyRequest.DigitsOnly | receivables/Domain/DTOs/Company/CompanyRequest.cs:27 | Keeps only digits. It is the identity exactly when the input has only digits, and shorter otherwise. |
| CompanyRequest.DigitValues | receivables/Domain/DTOs/Company/CompanyRequest.cs:58 | Each character becomes its code minus the code of '0', one value per character. |
| CompanyRequest.CheckDigit | receivables/Domain/DTOs/Company/CompanyRequest.cs:62-63 | A check digit is always between 0 and 9. |
| CompanyRequest.IsValidCnpj | receivables/Domain/DTOs/Company/CompanyRequest.cs:53-71 | The two accumulating loops compute the same verdict as the check-digit rule. The rule: d[12] is the mod-11 digit of digits 0-11 with weights 5,4,3,2,9,8,7,6,5,4,3,2, and d[13] is that of digits 0-12 with weights 6,5,4,3,2,9,8,7,6,5,4,3,2. |
| CompanyRequest.Validate | receivables/Domain/DTOs/Company/CompanyRequest.cs:19-51 | At most one CNPJ error is ever reported. |
| CompanyRequest.DistinctCountOne | receivables/Domain/DTOs/Company/CompanyRequest.cs:41 | A non-empty string has exactly one distinct character iff all its characters equal the first. |
| CompanyRequest.BlankIsRequired | receivables/Domain/DTOs/Company/CompanyRequest.cs:21-25 | A null or blank CNPJ gives exactly the "required" error. |
| CompanyRequest.NonDigitIsRejected | receivables/Domain/DTOs/Company/CompanyRequest.cs:27-33 | A non-blank CNPJ with any non-digit gives exactly the "digits only" error. |
| CompanyRequest.WrongLengthIsRejected | receivables/Domain/DTOs/Company/CompanyRequest.cs:35-39 | A string of digits whose length is not 14 gives exactly the length error. |
| CompanyRequest.AllEqualIsRejected | receivables/Domain/DTOs/Company/CompanyRequest.cs:41-45 | Fourteen equal digits give exactly the "all digits equal" error. |
| CompanyRequest.BadCheckDigitsIsInvalid | receivables/Domain/DTOs/Company/CompanyRequest.cs:47-50 | Fourteen digits, not all equal, with wrong check digits give exactly the "invalid CNPJ" error, for every such input. |
| CompanyRequest.ValidateAcceptsExactlyWellFormed | receivables/Domain/DTOs/Company/CompanyRequest.cs:19-51 | No error iff the CNPJ is present, 14 digits, not all equal, and has valid check digits. |
| CompanyRequest.ZerosPassChecksumButAreRejected | receivables/Domain/DTOs/Company/CompanyRequest.cs:41-50 | "00000000000000" satisfies the check-digit rule. Only the all-equal check rejects it. |
| CompanyRequest.WeightedSumOfZeros | receivables/Domain/DTOs/Company/CompanyRequest.cs:60-61 | The weighted sum of zero digits is 0 for any weights. |
| CompanyRequest.ValidExampleSum1 | receivables/Domain/DTOs/Company/CompanyRequest.cs:60-61 | The first weighted sum of 11222333000181 is 102. |
| CompanyRequest.ValidExampleSum2 | receivables/Domain/DTOs/Company/CompanyRequest.cs:66-67 | The second weighted sum of 11222333000181 is 120. |
| CompanyRequest.ValidExampleDigits | receivables/Domain/DTOs/Company/CompanyRequest.cs:53-71 | 11222333000181 has valid check digits. |
| CompanyRequest.ValidExample | receivables/Domain/DTOs/Company/CompanyRequest.cs:19-51 | The CNPJ 11222333000181 passes validation with no error. |
| CompanyRequest.InvalidExampleSum2 | receivables/Domain/DTOs/Company/CompanyRequest.cs:66-67 | The second weighted sum of 12345678901234 is 286. |
| CompanyRequest.InvalidExampleDigits | receivables/Domain/DTOs/Company/CompanyRequest.cs:53-71 | 12345678901234, the CNPJ of the service tests, has a wrong second check digit. |
| CompanyRequest.InvalidExample | receivables/Domain/DTOs/Company/CompanyRequest.cs:47-50 | 12345678901234 gives exactly the "invalid CNPJ" error. |
| CompanyRequest.Complete | receivables/Domain/DTOs/Company/CompanyRequest.cs:55-70 | Appending the two computed check digits to twelve base digits keeps the base. |
| CompanyRequest.CheckDigitsDeterminedByBase | receivables/Domain/DTOs/Company/CompanyRequest.cs:55-70 | Fourteen digits are valid iff they equal their first twelve completed with the computed check digits. So each base has exactly one valid CNPJ. |
| UpdateInvoiceRequest.Validate | receivables/Domain/DTOs/Invoice/UpdateInvoiceRequest.cs:16-27 | A due-date error iff the due date's day is not after today's. An amount error iff amount ≤ 0. No error iff both are fine. When both fail, the due-date error comes first. |
| UpdateInvoiceRequest.ValidateIgnoresTimeOfDay | receivables/Domain/DTOs/Invoice/UpdateInvoiceRequest.cs:18 | Only the calendar dates of the due date and of now matter. |
| UpdateInvoiceRequest.BothErrorsReported | receivables/Domain/DTOs/Invoice/UpdateInvoiceRequest.cs:16-27 | With no early exit, both errors are reported together, due date first. |
| InvoiceEntity.Invoice.constructor | receivables/Infrastructure/Entities/Invoice.cs:14-21 | A new invoice holds the given id, company, number, amount and due date, and is not in the cart. |
| InvoiceEntity.Invoice.Load | receivables/Infrastructure/Entities/Invoice.cs:12 | Materialising a stored row gives an object whose state is that row. |
| InvoiceEntity.Invoice.Update | receivables/Infrastructure/Entities/Invoice.cs:23-28 | Replaces number, amount and due date. Id, company and cart flag are unchanged. |
| InvoiceEntity.Invoice.AddToCart | receivables/Infrastructure/Entities/Invoice.cs:30 | Sets the flag and changes nothing else. Idempotent. |
| InvoiceEntity.Invoice.RemoveFromCart | receivables/Infrastructure/Entities/Invoice.cs:31 | Clears the flag and changes nothing else. Idempotent. |
| CompanyEntity.Company.constructor | receivables/Infrastructure/Entities/Company.cs:20-27 | Stores cnpj, name, revenue and segment as given. The credit limit is the calculator's value for them. The invoice list starts empty. |
| CompanyEntity.Company.RecalculateCreditLimit | receivables/Infrastructure/Entities/Company.cs:29-32 | Only the credit limit changes, to the calculator's value. Idempotent. |
| InvoiceQueries.IndexOfId | receivables/Infrastructure/Repositories/InvoiceRepository.cs:15 | The first position holding the id, or none exactly when no row has it. |
| InvoiceQueries.FindById | receivables/Infrastructure/Repositories/CartRepository.cs:20-21 | The found row is stored and has the id. None iff no stored row has the id. |
| InvoiceQueries.FindByIdIsTheRowWithThatId | receivables/Infrastructure/Repositories/InvoiceRepository.cs:15 | When ids are unique, the lookup finds every stored row by its own id. |
| InvoiceQueries.InCartOf | receivables/Infrastructure/Repositories/InvoiceRepository.cs:23-24 | Exactly the stored rows of the company that are in the cart. |
| InvoiceQueries.NothingInCartIsEmpty | receivables/Infrastructure/Repositories/InvoiceRepository.cs:23-24 | With no in-cart row for the company, the filter is empty. |
| InvoiceQueries.NumberLeReflexive | receivables/Infrastructure/Repositories/CartRepository.cs:17 | The number order is reflexive. |
| InvoiceQueries.NumberLeTotal | receivables/Infrastructure/Repositories/CartRepository.cs:17 | The number order is total. |
| InvoiceQueries.NumberLeTransitive | receivables/Infrastructure/Repositories/CartRepository.cs:17 | The number order is transitive. |
| InvoiceQueries.NumberLeAntisymmetric | receivables/Infrastructure/Repositories/CartRepository.cs:17 | The number order is antisymmetric. |
| InvoiceQueries.Insert | receivables/Infrastructure/Repositories/CartRepository.cs:17 | Insertion adds exactly one copy of the element. |
| InvoiceQueries.SortByNumber | receivables/Infrastructure/Repositories/CartRepository.cs:17 | The sort is a permutation of its input. |
| InvoiceQueries.InsertSorted | receivables/Infrastructure/Repositories/CartRepository.cs:17 | Inserting into a sorted list keeps it sorted. |
| InvoiceQueries.SortByNumberSorted | receivables/Infrastructure/Repositories/CartRepository.cs:17 | The sort's result is in ascending number order and is a permutation of its input. |
| InvoiceQueries.SumAmounts | receivables/Infrastructure/Repositories/CartRepository.cs:51 | `Sum(i => i.Amount)` over a list. It has no contract of its own; SumAmountsAppend, SumAmountsInsert and SumAmountsSort state its meaning. |
| InvoiceQueries.SumAmountsAppend | receivables/Infrastructure/Repositories/CartRepository.cs:51 | The sum over a concatenation is the sum of the sums. |
| InvoiceQueries.SumAmountsInsert | receivables/Infrastructure/Repositories/CartRepository.cs:51 | Inserting a row adds its amount to the sum. |
| InvoiceQueries.SumAmountsSort | receivables/Infrastructure/Repositories/CartRepository.cs:49-52 | Ordering does not change the sum. |
| Persistence.ValidStore | receivables/Infrastructure/Persistence/AppDbContext.cs:13-33 | The schema's constraints as a predicate: companies keyed by id, unique invoice ids, every invoice's company stored. The AppDbContext methods and the ValidAfter lemmas show it is kept. |
| Persistence.CnpjTaken | receivables/Infrastructure/Repositories/CompanyRepository.cs:17 | `GetByCnpjAsync` finds a company: some stored company has exactly that CNPJ (ordinal equality; see Left out). |
| Persistence.ReplaceById | receivables/Infrastructure/Repositories/InvoiceRepository.cs:26 | Replacing by id keeps the table's length. |
| Persistence.ReplaceByIdPointwise | receivables/Infrastructure/Repositories/InvoiceRepository.cs:26 | Each position holds the new row if its id matches, and the old row otherwise. |
| Persistence.ReplaceByIdLookups | receivables/Infrastructure/Repositories/InvoiceRepository.cs:26 | Ids stay unique. The id now finds the new row. Every other id finds what it found before. |
| Persistence.ValidAfterAddCompany | receivables/Infrastructure/Persistence/AppDbContext.cs:13-33 | A company with a fresh id keeps the store invariant. |
| Persistence.ValidAfterAddInvoice | receivables/Infrastructure/Persistence/AppDbContext.cs:13-33 | An invoice with a fresh id for a stored company keeps the store invariant. |
| Persistence.ValidAfterReplace | receivables/Infrastructure/Persistence/AppDbContext.cs:13-33 | Replacing a stored invoice by one of a stored company keeps the store invariant. |
| Persistence.AppDbContext.constructor | receivables/Infrastructure/Persistence/AppDbContext.cs:10-11 | A new context is empty and valid. |
| Persistence.AppDbContext.AddCompany | receivables/Infrastructure/Persistence/AppDbContext.cs:17 | Adds exactly the one company under its id. Invoices are unchanged. The invariant is kept. |
| Persistence.AppDbContext.AddInvoice | receivables/Infrastructure/Persistence/AppDbContext.cs:23-28 | Appends exactly the one invoice. Companies are unchanged. The invariant is kept. |
| Persistence.AppDbContext.UpdateInvoice | receivables/Infrastructure/Persistence/AppDbContext.cs:28 | Replaces the invoice with that id. Companies are unchanged. The invariant is kept. |
| InvoiceRepository.GetByNumberAndCompany | receivables/Infrastructure/Repositories/InvoiceRepository.cs:17-18 | A hit is stored and matches number and company. None iff no stored invoice matches both. |
| InvoiceRepository.GetByCompany | receivables/Infrastructure/Repositories/InvoiceRepository.cs:20-21 | Exactly the company's stored invoices, in the cart or not. |
| InvoiceRepository.InCartAreAmongCompanyInvoices | receivables/Infrastructure/Repositories/InvoiceRepository.cs:20-24 | Every in-cart invoice of a company is among its invoices. |
| InvoiceRepository.Add | receivables/Infrastructure/Repositories/InvoiceRepository.cs:13 | Appends the entity's row and changes nothing else. |
| InvoiceRepository.Update | receivables/Infrastructure/Repositories/InvoiceRepository.cs:26 | Replaces the row with the entity's id by its state and changes nothing else. |
| CartRepository.GetCartItemsByCompany | receivables/Infrastructure/Repositories/CartRepository.cs:14-18 | Sorted by number. A permutation of the company's in-cart invoices (the unordered repository query). Contains exactly those invoices. |
| CartRepository.GetCartTotal | receivables/Infrastructure/Repositories/CartRepository.cs:49-52 | The sum of the amounts of that same listing. 0 when the company has nothing in its cart. |
| CartRepository.IsInvoiceInCart | receivables/Infrastructure/Repositories/CartRepository.cs:43-47 | False for an unknown id. With unique ids, true iff the invoice with that id is in the cart. |
| CartRepository.AddInvoiceToCart | receivables/Infrastructure/Repositories/CartRepository.cs:23-31 | The table becomes the flag update of that id. A no-op for an unknown id. Companies are unchanged. |
| CartRepository.RemoveInvoiceFromCart | receivables/Infrastructure/Repositories/CartRepository.cs:33-41 | The same with the flag cleared. |
| CartRepository.WithCartFlag | receivables/Infrastructure/Repositories/CartRepository.cs:23-41 | Load, set or clear the flag, update: the stored row with the id gets the flag, and an unknown id leaves the table. FlagChangesOnlyTarget and AddThenRemoveRestores state its meaning. |
| CartRepository.CartsWithinLimits | receivables/Domain/Services/CartService.cs:34-45 | The invariant the limit check protects: every stored company's in-cart total is at most its credit limit. The Keeps lemmas show every store-changing operation preserves it. |
| CartRepository.StoredInvoiceHasCompany | receivables/Infrastructure/Persistence/AppDbContext.cs:23-25 | In a valid store, every invoice's company is stored. |
| CartRepository.TotalAfterReplace | receivables/Infrastructure/Repositories/CartRepository.cs:49-52 | Replacing one invoice moves each company's in-cart sum by the difference of the old and new row's contribution. |
| CartRepository.TotalAfterFlag | receivables/Infrastructure/Repositories/CartRepository.cs:23-41 | The total after a flag change, for every company. |
| CartRepository.TotalAfterAdd | receivables/Infrastructure/Repositories/CartRepository.cs:23-31 | Adding an invoice not in the cart raises its company's total by its amount. Other totals are unchanged. |
| CartRepository.TotalAfterRemove | receivables/Infrastructure/Repositories/CartRepository.cs:33-41 | Removing an in-cart invoice lowers its company's total by its amount. Other totals are unchanged. |
| CartRepository.FlagChangesOnlyTarget | receivables/Infrastructure/Repositories/CartRepository.cs:23-47 | Only the target's flag changes. It then reads as the new flag. Other ids find what they found before. An unknown id leaves the table as it was. |
| CartRepository.AddThenRemoveRestores | receivables/Infrastructure/Repositories/CartRepository.cs:23-41 | Adding an invoice that was not in the cart and then removing it restores the table. |
| CartService.MapToCartInvoiceDtos | receivables/Domain/Services/CartService.cs:77 | One entry per listed invoice. |
| CartService.GetCart | receivables/Domain/Services/CartService.cs:67-81 | Fails iff the company is unknown. Otherwise: its id and name, the count of in-cart invoices (equal to the entry count) and the cart total. |
| CartService.GetCartIsListing | receivables/Domain/Services/CartService.cs:70-77 | The entries map the repository's ordered listing. |
| CartService.GetCartInNumberOrder | receivables/Domain/Services/CartService.cs:70-77 | The entries are in ascending number order. |
| CartService.GetCartEntriesAreTheCart | receivables/Domain/Services/CartService.cs:70-77 | Every entry is the mapping of an in-cart invoice of the company, and every such invoice has an entry. |
| CartService.GetCartEmpty | receivables/Domain/Services/CartService.cs:67-81 | An empty cart has no entries, 0 items and 0 gross. |
| CartService.AddCheck | receivables/Domain/Services/CartService.cs:27-45 | The admission checks in the source's order, first failure wins: company, invoice, ownership, already in cart, total + amount > limit. AddKeepsCartWithinLimit, AddAdmitsTotalEqualToLimit, UnknownCompanyWins and OverLimitScenario state its consequences. |
| CartService.RemoveCheck | receivables/Domain/Services/CartService.cs:55-59 | The removal checks in the source's order: company, invoice, ownership, not in cart. RemoveKeepsCartWithinLimit and AddThenRemoveRoundTrip state its consequences. |
| CartService.AddInvoiceToCart | receivables/Domain/Services/CartService.cs:25-51 | Runs the checks in order: company, invoice, ownership, already in cart, limit (strictly greater fails). A failure leaves the store unchanged. On success only the target's flag is set, and the result is the new cart. |
| CartService.RemoveInvoiceFromCart | receivables/Domain/Services/CartService.cs:53-65 | Runs the checks in order: company, invoice, ownership, not in cart. A failure leaves the store unchanged. On success only the target's flag is cleared, and the result is the new cart. |
| CartService.GetCartCheckout | receivables/Domain/Services/CartService.cs:83-87 | The checkout of the company. An unknown company fails first. |
| CartService.AddKeepsCartWithinLimit | receivables/Domain/Services/CartService.cs:34-47 | After a successful admission, the company's total is the old total plus the amount and within its limit. Other totals are unchanged. The invariant is preserved. |
| CartService.RemoveKeepsCartWithinLimit | receivables/Domain/Services/CartService.cs:53-62 | After a successful removal, the company's total drops by the amount. Other totals are unchanged. With a non-negative amount the invariant is preserved. |
| CartService.AddAdmitsTotalEqualToLimit | receivables/Domain/Services/CartService.cs:37 | A new total equal to the limit is admitted. |
| CartService.AddThenRemoveRoundTrip | receivables/Domain/Services/CartService.cs:25-65 | Right after a successful admission the invoice can be removed, and removing it restores the table. |
| CartService.UnknownCompanyWins | receivables/Domain/Services/CartService.cs:25-69 | An unknown company is reported before any other problem by Add, Remove and GetCart. |
| CartService.OverLimitScenario | receivables.Api.Tests/CartServiceTests.cs:158-183 | A company with revenue 50000 in Services has a limit of 25000. With 10000 in the cart, adding 20000 is refused for the limit. |
| CartService.TwoInvoiceCartScenario | receivables.Api.Tests/CartServiceTests.cs:244-271 | Two in-cart invoices of 10000 and 5000 give 2 items and 15000 gross. |
| CheckoutService.Quote | receivables/Domain/Services/CheckoutService.cs:47-54 | One priced invoice: its number, gross = amount, net = CalculateNetValue at the given `now`. CheckoutItemsInNumberOrder and CalculateCheckoutByInvoiceId state its use. |
| CheckoutService.Checkout | receivables/Domain/Services/CheckoutService.cs:24-74 | A failure is one of CompanyNotFound, EmptyCart, CreditLimitExceeded. A success is for a stored company, has at least one item and a gross total within the limit. |
| CheckoutService.CalculateCheckout | receivables/Domain/Services/CheckoutService.cs:24-74 | The accumulating loop over the ordered cart computes the checkout value, with the same totals and items. |
| CheckoutService.CalculateCheckoutByInvoiceId | receivables/Domain/Services/CheckoutService.cs:76-93 | Fails iff no invoice has the id. Otherwise that invoice's quote, made with the one `now`: gross = amount, net = the calculator's value. No limit check. |
| CheckoutService.EmptyCartIsEmptyListing | receivables/Domain/Services/CheckoutService.cs:35-38 | The unordered in-cart query is empty iff the ordered listing is. |
| CheckoutService.CheckoutOutcome | receivables/Domain/Services/CheckoutService.cs:26-63 | One iff per outcome: CompanyNotFound iff unknown company; EmptyCart iff an empty cart; CreditLimitExceeded iff total > limit; success iff none of these (equality passes). |
| CheckoutService.CheckoutShape | receivables/Domain/Services/CheckoutService.cs:40-73 | On success: the items are the quotes of the ordered cart; total gross is the cart total; total net is the sum of the items' net values; name, CNPJ and limit are the company's. |
| CheckoutService.CheckoutItemsInNumberOrder | receivables/Domain/Services/CheckoutService.cs:40-54 | One item per in-cart invoice, in ascending number order. Each item is an in-cart invoice of the company, with gross = amount and net = CalculateNetValue at the one `now`. |
| CheckoutService.CheckoutCoversCart | receivables/Domain/Services/CheckoutService.cs:40-54 | Every in-cart invoice of the company is quoted. |
| CheckoutService.WithinLimitsCheckoutNotRefused | receivables/Domain/Services/CheckoutService.cs:60-63 | While the central invariant holds, a checkout never fails for the limit. |
| CheckoutService.NetTotalAtMostGross | receivables/Domain/Services/CheckoutService.cs:56-57 | If the power is at least 1 and amounts are non-negative whole cents, the net sum lies between 0 and the gross sum. |
| CheckoutService.CheckoutNetAtMostGross | receivables/Domain/Services/CheckoutService.cs:56-73 | The same on a successful checkout's totals. |
| CompaniesService.Create | receivables/Domain/Services/CompaniesService.cs:22-46 | A duplicate CNPJ fails first, then a revenue below 10000; a failure stores nothing. On success exactly one company is added, with limit Calculate(revenue, segment), and the DTO echoes it. |
| CompaniesService.CreateCheck | receivables/Domain/Services/CompaniesService.cs:24-30 | The registration checks in the source's order: a taken CNPJ, then revenue below 10000. DuplicateCheckedBeforeRevenue and RegisteredLimitIsPositive state its consequences. |
| CompaniesService.DuplicateCheckedBeforeRevenue | receivables/Domain/Services/CompaniesService.cs:24-30 | A taken CNPJ is reported whatever the revenue. |
| CompaniesService.RegisteredLimitIsPositive | receivables/Domain/Services/CompaniesService.cs:30-57 | A company that passes the checks gets a non-negative limit, and at least half its revenue in a named segment. |
| CompaniesService.CreateKeepsCartsWithinLimits | receivables/Domain/Services/CompaniesService.cs:33-35 | A new company keeps the store valid, has an empty cart total and keeps the central invariant. |
| InvoicesService.Create | receivables/Domain/Services/InvoicesService.cs:21-32 | Unknown company fails, then a duplicate (number, company); a failure stores nothing. On success exactly the request's invoice is appended, not in any cart, and the DTO echoes it. |
| InvoicesService.Update | receivables/Domain/Services/InvoicesService.cs:34-47 | Unknown id fails, then a duplicate number, then an invoice in the cart; a failure stores nothing. On success only that invoice changes: new number, amount and due date. |
| InvoicesService.CreateCheck | receivables/Domain/Services/InvoicesService.cs:23-25 | The creation checks in the source's order: unknown company, then an invoice with that (number, company). CreateKeepsNumbersUnique states its consequence. |
| InvoicesService.DuplicateNumber | receivables/Domain/Services/InvoicesService.cs:81-92 | No lookup when the number is kept; otherwise a company invoice with the new number and another id. SameNumberIsNeverDuplicate and IdComparisonIsRedundant state its meaning. |
| InvoicesService.UpdateCheck | receivables/Domain/Services/InvoicesService.cs:36-40 | The update checks in the source's order: unknown id, duplicate number, invoice in the cart. DuplicateCheckedBeforeCart and UpdateKeepsNumbersUnique state its consequences. |
| InvoicesService.SameNumberIsNeverDuplicate | receivables/Domain/Services/InvoicesService.cs:83-84 | Keeping the number is never a duplicate. Such an update succeeds iff the invoice is not in the cart. |
| InvoicesService.DuplicateCheckedBeforeCart | receivables/Domain/Services/InvoicesService.cs:38-40 | When another invoice of the company has the new number, the duplicate is reported even if the invoice is in the cart. |
| InvoicesService.IdComparisonIsRedundant | receivables/Domain/Services/InvoicesService.cs:86-91 | With unique ids, exact (ordinal) number equality and a changed number, a duplicate is reported iff the company has an invoice with that number. |
| InvoicesService.CreateKeepsNumbersUnique | receivables/Domain/Services/InvoicesService.cs:71-79 | A successful create keeps invoice numbers unique within each company. |
| InvoicesService.UpdateKeepsNumbersUnique | receivables/Domain/Services/InvoicesService.cs:81-92 | A successful update keeps invoice numbers unique within each company. |
| InvoicesService.CreateKeepsCartTotals | receivables/Domain/Services/InvoicesService.cs:102-110 | A new invoice, not in any cart, changes no cart total. |
| InvoicesService.InCartOfSnocOutOfCart | receivables/Domain/Services/InvoicesService.cs:102-110 | Appending an invoice that is not in the cart leaves every in-cart listing as it was. |
| InvoicesService.UpdateKeepsCartTotals | receivables/Domain/Services/InvoicesService.cs:94-100 | A successful update changes no cart total, so it keeps the central invariant. |

## Left out

- Storage rounding: amounts and limits are exact. The numeric(18,2) columns would round a stored limit such as 0.55 × 12345.67 to cents.
- `decimal` precision: its 28 significant digits are not modelled, and neither is its overflow. `days / 30` and the division by the power are exact here.
- `Math.Pow` on `double` is a parameter. Its properties (positive, at least 1, monotone) are preconditions of the lemmas that need them.
- Async and concurrency: every service call is atomic and sequential. The read-then-write race between the limit check and the save in the cart admission is not modelled.
- `SaveChangesAsync` is merged into the write before it.
- An EF update of an id that is not stored is not modelled. The repository `Update` requires the id to be stored, as every caller has just read it.
- Guid generation and `DateTime.UtcNow` are parameters. A fresh id is a precondition.
- Not modelled: controllers, dependency injection, environment variables, validation-error formatting, exception texts and the `:N2` formatting.
- The company repository is not modelled. Its lookups are the company map and `Persistence.CnpjTaken`.
- Character classes: `char.IsDigit` is ASCII digits only; the source accepts other Unicode decimal digits. `char.IsWhiteSpace` is the list of .NET whitespace code points.
- Invoice-number order is ordinal (character-code) order. The source's order depends on database collation or the culture comparer. That `OrderBy` is stable is not stated, and it is moot once numbers are unique within a company, which is preserved.
- InvoiceRepository.GetByNumberAndCompany, Persistence.CnpjTaken, InvoicesService.IdComparisonIsRedundant: string equality is exact (ordinal). The lookups run in the database, whose collation is not modelled; a case-insensitive collation would treat "INV001" and "inv001" as equal, so the source would refuse a create the model admits, and the id comparison would no longer be redundant.
- CompaniesService.Create: requires a present CNPJ, because model validation rejects a missing one before the service runs.
- CartService.RemoveKeepsCartWithinLimit: needs a non-negative amount to keep the invariant. The validation of new invoices' amounts is not part of this model.
- UpdateInvoiceRequest.Validate is not called by the update service, in the source as in the model; model validation runs it earlier.
- The `Invoices` navigation list of a company is never read by the services, so it only starts empty here.
