# Kotlin kassa and tutorial rationals, modelled in Dafny

This project models two small pieces of a Kotlin repository and proves properties of them.

**The checkout engine (`kassa.dfy`, module `Kassa`).** A `KassaImpl` holds a list of receipt lines (`BonRegel`) and an accumulated flat discount (`korting`).
- `scan` looks an article up in the catalogue (`ArtikelRepository`) and appends a new line at the catalogue price.
- `totaal` first runs every configured discount rule over the lines, then sums the line prices and subtracts `korting`.
- The one rule, `NiveaTweedeGratisRegel` ("Nivea: second one free"), keeps the Nivea lines and sorts them by catalogue price. It sets the cheaper half of them to price 0, on the very line objects the kassa owns.

In the model, the kassa and its lines are classes whose methods change them in place. The filter and the stable sort are pure functions on sequences, and the rule's effect is specified through them.

**The tutorial's `Rational` (`rationals.dfy`, module `Rationals`).**
- The constructor rejects a zero denominator. Otherwise it normalises the fraction with a recursive gcd and puts the sign on the numerator.
- `+ - * /` and unary minus are cross-multiplication formulas that go through the constructor again.
- `equals` compares fields.

The model proves the following about this type:
- The normal form: positive denominator and lowest terms.
- That normalising preserves the value.
- That the normal form is unique.
- The error conditions of the operators.
- Algebraic laws: negation is an involution, x + (-x) = 0, minus is plus of the negation, and (x / y) * y = x.

The unit tests are stated as lemmas.

**Small tutorial functions (`tutorial.dfy`, module `Tutorial`).** These are the greeting that counts its calls, `least`, and `card2string`.

Integers are unbounded throughout. Kotlin's truncating `/` and `%` are written out as `Quot` and `Rem`. Prices are integers (cents).

The Kotlin source does not compile exactly as written. The model follows its evident intent:
- A line's `prijs` is a mutable field that starts at the article's price.
- A `BonRegel` is built from one `Artikel`.
- `setPrijs(0)` assigns that field.
- `pasKortingRegelsToe` adds the `Int` component of the pair each rule returns.

The code, and so the model, does not floor `totaal` at 0. It lets `korting` accumulate across calls, never resets line prices before the rules run, and checks no price against a range.

The total depends only on which articles were scanned, not on the order of scanning, as long as every line is still at its catalogue price when `totaal` runs (`TotaalVanCatalogusprijzen` and `TotaalVerwachtIsOrderFree`).

## Model

| member | source | states |
|---|---|---|
| Kassa.BonRegel.constructor | src/main/kotlin/kotlinKassa/KotlinKassa.kt:49-53 | a new line holds its article, and its price is the article's catalogue price |
| Kassa.BonRegel.SetPrijs | src/main/kotlin/kotlinKassa/KotlinKassa.kt:127 | the line's price becomes the given value |
| Kassa.CompareToIsConsistent | src/main/kotlin/kotlinKassa/KotlinKassa.kt:55-57 | compareTo orders by catalogue price (not the current line price); it is antisymmetric in sign and transitive |
| Kassa.Niveas | src/main/kotlin/kotlinKassa/KotlinKassa.kt:117 | the filter keeps exactly the lines whose brand is Nivea, and keeps no line more often than it occurs |
| Kassa.Insert | src/main/kotlin/kotlinKassa/KotlinKassa.kt:117 | one insertion step of the sort adds exactly the new line and keeps a sorted list sorted |
| Kassa.SortByPrice | src/main/kotlin/kotlinKassa/KotlinKassa.kt:117 | `sorted()` returns a permutation of its input, ascending by catalogue price |
| Kassa.SortOfSorted | src/main/kotlin/kotlinKassa/KotlinKassa.kt:117 | a list already in ascending order of catalogue price is left as it is |
| Kassa.SortIsIdempotent | src/main/kotlin/kotlinKassa/KotlinKassa.kt:117 | sorting a sorted result again changes nothing |
| Kassa.SortIsStable | src/main/kotlin/kotlinKassa/KotlinKassa.kt:117 | the sort is stable: lines of equal catalogue price keep their order |
| Kassa.GratisIsCheapestHalf | src/main/kotlin/kotlinKassa/KotlinKassa.kt:117-129 | of n Nivea lines exactly n/2 (rounded down) are made free, all of them Nivea lines of the receipt, and none costs more than a Nivea line that is not free |
| Kassa.GratisIsDistinct | src/main/kotlin/kotlinKassa/KotlinKassa.kt:117-129 | when the lines are distinct objects, the free lines are distinct too, so n/2 different lines become free |
| Kassa.NoPairNoDiscount | src/main/kotlin/kotlinKassa/KotlinKassa.kt:125-126 | with fewer than two Nivea lines no line is made free |
| Kassa.GeefKorting | src/main/kotlin/kotlinKassa/KotlinKassa.kt:124-129 | the first half of the sorted lines get price 0 in place; every other line keeps its price |
| Kassa.Korting | src/main/kotlin/kotlinKassa/KotlinKassa.kt:116-121 | the Nivea rule returns flat amount 0 and the sorted Nivea lines. Afterwards the free lines cost 0, and non-Nivea lines and Nivea lines outside the cheapest half keep their price |
| Kassa.Prijzen | src/main/kotlin/kotlinKassa/KotlinKassa.kt:96-98 | the snapshot of the line prices that totaal adds up, one per line in order |
| Kassa.SumPrijzenSnoc | src/main/kotlin/kotlinKassa/KotlinKassa.kt:96-98 | adding a line at the end adds its price to the sum |
| Kassa.KassaImpl.constructor | src/main/kotlin/kotlinKassa/KotlinKassa.kt:83-85 | a new kassa has the given rules and catalogue, no lines and korting 0 |
| Kassa.KassaImpl.Scan | src/main/kotlin/kotlinKassa/KotlinKassa.kt:87-90 | exactly one new line is appended, for the looked-up article and at its catalogue price. Earlier lines and korting are unchanged |
| Kassa.KassaImpl.PasKortingRegelsToe | src/main/kotlin/kotlinKassa/KotlinKassa.kt:103-109 | korting grows by the sum of the rules' flat amounts, which is 0 for the Nivea rule. When at least one rule is configured, the cheapest half of the Nivea lines cost 0 and all other lines keep their price |
| Kassa.KassaImpl.Subtotaal | src/main/kotlin/kotlinKassa/KotlinKassa.kt:93-98 | the accumulator loop of totaal returns the sum of the current line prices |
| Kassa.KassaImpl.Totaal | src/main/kotlin/kotlinKassa/KotlinKassa.kt:92-100 | applies the rules as above and returns the sum of the current line prices minus korting |
| Kassa.KassaImpl.TotaalHerberekend | src/main/kotlin/kotlinKassa/KotlinKassa.kt:92-109 | corrected total: every line is first put back at its catalogue price, so its final price depends only on the current lines (0 for the cheapest half of the Nivea lines, the catalogue price otherwise) |
| Kassa.TotaalTwice | src/main/kotlin/kotlinKassa/KotlinKassa.kt:92-109 | calling totaal twice without a scan in between returns the same value |
| Kassa.PricesStayInRange | src/main/kotlin/kotlinKassa/KotlinKassa.kt:124-129 | between calls every line costs its catalogue price or 0, so with non-negative catalogue prices each line price lies in [0, catalogue price] |
| Kassa.BonRegel.CompareTo | src/main/kotlin/kotlinKassa/KotlinKassa.kt:55-57 | `Integer.compare` on the catalogue prices: negative, zero or positive exactly as this line's catalogue price is below, equal to or above the other's |
| Kassa.NiveasSnoc | src/main/kotlin/kotlinKassa/KotlinKassa.kt:117 | the filter keeps every Nivea line in scan order: a scanned Nivea line is appended at the end of the filtered list, and any other line leaves it unchanged |
| Kassa.GratisTakesEarliest | src/main/kotlin/kotlinKassa/KotlinKassa.kt:117-127 | of two distinct, equally priced Nivea lines, the later scanned is made free only when the earlier scanned is free too |
| Kassa.NiveasKeepsOrder | src/main/kotlin/kotlinKassa/KotlinKassa.kt:117 | the filter keeps scan order: the Nivea lines of any one price appear in the same order as on the receipt |
| Kassa.NiveasSortedInScanOrder | src/main/kotlin/kotlinKassa/KotlinKassa.kt:117 | after filtering and sorting, the Nivea lines of one catalogue price are still in scan order, so the free ones among equal prices are the earliest scanned |
| Kassa.Gratis | src/main/kotlin/kotlinKassa/KotlinKassa.kt:117-125 | the lines the rule frees number half the Nivea lines, rounded down |
| Kassa.Sum | src/main/kotlin/kotlinKassa/KotlinKassa.kt:96-98 | the sum of non-negative prices is non-negative |
| Kassa.SumKeepsPermutation | src/main/kotlin/kotlinKassa/KotlinKassa.kt:96-98 | the sum of the prices does not depend on their order |
| Kassa.GratisPricesAreOrderFree | src/main/kotlin/kotlinKassa/KotlinKassa.kt:117-125 | the catalogue prices of the free lines, in order, depend only on the multiset of scanned articles |
| Kassa.AfgerekendSum | src/main/kotlin/kotlinKassa/KotlinKassa.kt:96-98 | freeing some distinct lines takes exactly their catalogue prices off the sum of the catalogue prices |
| Kassa.TotaalVerwachtIsOrderFree | src/main/kotlin/kotlinKassa/KotlinKassa.kt:92-129 | two receipts with the same articles in any order have the same expected total |
| Kassa.TotaalVanCatalogusprijzen | src/main/kotlin/kotlinKassa/KotlinKassa.kt:92-129 | totaal on lines still at their catalogue price returns the sum of the catalogue prices less those of the free lines (when a rule is configured), a value that depends only on the articles scanned |
| Kassa.EmptyReceiptExample | src/main/kotlin/kotlinKassa/KotlinKassa.kt:92-100 | an empty receipt totals 0 |
| Kassa.NoPairExample | src/main/kotlin/kotlinKassa/KotlinKassa.kt:116-129 | one Nivea line and one Dove line are both charged in full |
| Kassa.ThreeOfAKindExample | src/main/kotlin/kotlinKassa/KotlinKassa.kt:116-129 | three equal Nivea lines form one pair: one line is free, and the total is twice the price |
| Kassa.StaleDiscountExample | src/main/kotlin/kotlinKassa/KotlinKassa.kt:92-109 | the scenario of the finding below: totaal as written returns 250 twice, where the recomputed total is 385 |
| Rationals.Rem | src/test/kotlin/tutorial/Tutorial.kt:327 | Kotlin's `%`: the remainder is smaller than the divisor in absolute value and has the sign of the dividend |
| Rationals.QuotRem | src/test/kotlin/tutorial/Tutorial.kt:336-337 | Kotlin's truncating `/` and `%` recompose the dividend |
| Rationals.Abs | src/test/kotlin/tutorial/Tutorial.kt:327 | `Math.abs`: the result is non-negative and is the argument or its negation |
| Rationals.Sgn | src/test/kotlin/tutorial/Tutorial.kt:329 | the sign is -1, 0 or 1, 0 exactly for 0 and positive exactly for positive arguments |
| Rationals.Quot | src/test/kotlin/tutorial/Tutorial.kt:336-337 | Kotlin's truncating `/`: 0 exactly when the dividend is smaller in absolute value than the divisor; otherwise non-zero, and positive exactly when the operands have the same sign |
| Rationals.Equals | src/test/kotlin/tutorial/Tutorial.kt:372-382 | `equals` holds exactly when both fields agree |
| Rationals.Gcd | src/test/kotlin/tutorial/Tutorial.kt:326-328 | gcd is non-negative, and it is 0 exactly when both arguments are 0 |
| Rationals.GcdCofactors | src/test/kotlin/tutorial/Tutorial.kt:326-328 | gcd divides both arguments |
| Rationals.Bezout | src/test/kotlin/tutorial/Tutorial.kt:326-328 | gcd is an integer combination of its arguments |
| Rationals.GcdIsGreatest | src/test/kotlin/tutorial/Tutorial.kt:326-328 | every common divisor divides the gcd |
| Rationals.CoprimeByCombination | src/test/kotlin/tutorial/Tutorial.kt:326-328 | arguments with a combination equal to 1 have gcd 1 |
| Rationals.Normalise | src/test/kotlin/tutorial/Tutorial.kt:333-338 | dividing by the gcd and multiplying by the denominator's sign gives a positive denominator, lowest terms and the same value |
| Rationals.MakeRational | src/test/kotlin/tutorial/Tutorial.kt:319-339 | construction fails (IllegalArgument, "Denominator must not be zero") exactly when the denominator is 0. Otherwise the result is in normal form and has the value nume/denume; a zero numerator gives 0/1 |
| Rationals.NormalIsInLowestTerms | src/test/kotlin/tutorial/Tutorial.kt:334-337 | the only positive common divisor of a normal numerator and denominator is 1 |
| Rationals.DenominatorIsLeast | src/test/kotlin/tutorial/Tutorial.kt:334-337 | a normal denominator is the least positive denominator of its value |
| Rationals.NormalFormIsUnique | src/test/kotlin/tutorial/Tutorial.kt:334-337 | two normal rationals of equal value have equal fields |
| Rationals.NormaliseIsIdempotent | src/test/kotlin/tutorial/Tutorial.kt:319-339 | constructing from a normal rational's fields gives it back unchanged |
| Rationals.FromInt | src/test/kotlin/tutorial/Tutorial.kt:341 | the secondary constructor gives i/1 and never fails |
| Rationals.EqualsIsSameValue | src/test/kotlin/tutorial/Tutorial.kt:372-382 | on constructed values, field-wise equals holds exactly when the values are equal |
| Rationals.Plus | src/test/kotlin/tutorial/Tutorial.kt:347-349 | fails exactly when the product of the denominators is 0. Otherwise the result is normal and has the value of the cross-multiplied sum |
| Rationals.Minus | src/test/kotlin/tutorial/Tutorial.kt:351-353 | fails exactly when the product of the denominators is 0. Otherwise the result is normal and has the value of the cross-multiplied difference |
| Rationals.Times | src/test/kotlin/tutorial/Tutorial.kt:355-357 | fails exactly when the product of the denominators is 0. Otherwise the result is normal and has the value of the product |
| Rationals.Div | src/test/kotlin/tutorial/Tutorial.kt:359-361 | fails exactly when the new denominator x.denominator * y.numerator is 0. Otherwise the result is normal and has the value of the quotient |
| Rationals.Neg | src/test/kotlin/tutorial/Tutorial.kt:363-365 | the result is normal and has the negated value |
| Rationals.OnlyDivisionByZeroFails | src/test/kotlin/tutorial/Tutorial.kt:347-361 | on constructed values, plus, minus and times never fail, and div fails exactly when the divisor's numerator is 0 |
| Rationals.NegNegatesNumerator | src/test/kotlin/tutorial/Tutorial.kt:363-365 | unary minus of a constructed value negates the numerator and keeps the denominator |
| Rationals.NegIsInvolution | src/test/kotlin/tutorial/Tutorial.kt:363-365 | negating twice gives the value back |
| Rationals.PlusNegIsZero | src/test/kotlin/tutorial/Tutorial.kt:347-365 | x + (-x) is 0/1 |
| Rationals.MinusIsPlusNeg | src/test/kotlin/tutorial/Tutorial.kt:347-365 | x - y equals x + (-y) |
| Rationals.Identities | src/test/kotlin/tutorial/Tutorial.kt:347-357 | 0/1 is the identity of plus and 1/1 the identity of times |
| Rationals.DivThenTimes | src/test/kotlin/tutorial/Tutorial.kt:355-361 | (x / y) * y == x for a non-zero y |
| Rationals.RationalsTestCases | src/test/kotlin/tutorial/Tutorial.kt:389-445 | the tests denominatorCanNotBeZero, positiveNumbers, denomNeg, nomerNeg, bothNeg and zero |
| Rationals.DivisionTestCase | src/test/kotlin/tutorial/Tutorial.kt:427-432 | the test aritmetic2: (24 gedeeldDoor 19) / Rational(2) equals Rational(12, 19) |
| Rationals.NegationTestCase | src/test/kotlin/tutorial/Tutorial.kt:434-439 | the test negation: -Rational(3, 5) equals Rational(-3, 5) |
| Tutorial.Globals.constructor | src/test/kotlin/tutorial/Tutorial.kt:19 | the greeting counter starts at 0 |
| Tutorial.Globals.MakeGreeting | src/test/kotlin/tutorial/Tutorial.kt:22-25 | counts exactly one more greeting and returns "Welcome to the zoo " followed by the name |
| Tutorial.GreetingTest | src/test/kotlin/tutorial/Tutorial.kt:38-43 | the test greeting: greeting Donald gives "Welcome to the zoo Donald", with one greeting counted |
| Tutorial.Least | src/test/kotlin/tutorial/Tutorial.kt:48 | the result is at most both arguments and is one of them |
| Tutorial.SmallestTestCase | src/test/kotlin/tutorial/Tutorial.kt:51-54 | the test smallest: least(6, 4) == 4 |
| Tutorial.CardToString | src/test/kotlin/tutorial/Tutorial.kt:99-105 | each card is named "clubs", "diamonds", "hearts" or "spades" |
| Tutorial.CardToStringIsInjective | src/test/kotlin/tutorial/Tutorial.kt:99-105 | card2string gives different cards different names |

## Left out

- `ArtikelRepository` has no implementation in the repository. It is modelled as a total function from SKU to article, with no failure case. An unknown SKU is therefore not modelled.
- `BonRegel.artikel` is declared `var` but is never reassigned. The model makes it a constant, so the only line state that changes is the price.
- The unused `metKorting` copy in `NiveaTweedeGratisRegel.korting` has no effect and is not modelled.
- The other discounts named only in comments (Dove, jam) are not implemented in the code and are not modelled. So are the printer, customer display and stock posting, which have no code.
- Kassa.Catalogus: a small example catalogue used only by the worked examples. Handzeep Nivea (1,35), Handzeep Dove (1,55) and Scheerzeep Nivea (2,50) carry the prices of the example price list in src/main/kotlin/kotlinKassa/KotlinKassa.kt:18-25. Lippenbalsem Nivea (0,99) is not on that list and is invented, as are the SKU strings "1", "2", "3" and "8".
- Kassa.TotaalVanCatalogusprijzen: order independence is proved only for lines still at their catalogue price. After an earlier `totaal` the stale prices described under Findings make the total depend on the history of calls.
- JVM 32-bit `Int` overflow, including `Math.abs(Int.MIN_VALUE)`, is not modelled: all arithmetic is on unbounded integers.
- `Rational.toString`, `Rational.hashCode` and the identity and class checks inside `equals` are not modelled. For two Rationals those checks do not change the outcome.
- `gedeeldDoor` is the primary constructor under another name and is modelled by `Rationals.MakeRational`.
- The tutorial's language demos (types, smart casts, printing, lambdas, the Java array-covariance example) contain no logic to state and are not modelled.
- The package-level greeting counter is modelled as the field of a `Globals` object, since Dafny has no mutable top-level variables.

## Findings

| source | as written | input that shows it | evidently intended | confidence | as-written member | corrected member |
|---|---|---|---|---|---|---|
| src/main/kotlin/kotlinKassa/KotlinKassa.kt:92-109 | `totaal` runs the rules on the current line prices and never resets them, so a line made free by an earlier `totaal` stays at 0 after later scans | Scan Scheerzeep Nivea (250) and Handzeep Nivea (135); `totaal` frees the hand soap and returns 250. Scan one Lippenbalsem Nivea (99); `totaal` frees the lip balm, the hand soap is still 0, and it returns 250 again: two of the three Nivea lines are free although they form only one pair | the rules recompute from catalogue prices on every `totaal`: only the lip balm is free and the total is 135 + 250 = 385 | high: the discrepancy is proved on the model; not executed | Kassa.StaleDiscountExample | Kassa.KassaImpl.TotaalHerberekend |
