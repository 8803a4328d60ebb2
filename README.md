# Swift Fundamentals: a verified model of the tutorial logic

The repository is a set of Swift playgrounds that teach the language. Most
of their code prints. The parts with behaviour that can be stated are
modelled here, one Dafny module per playground:

- `StructPartTwo` (`struct_part_two.dfy`): the `bankAccount` struct. It has a
  private balance that only `deposit(amount:)` and a guarded
  `withdraw(amount:)` change. The struct is a class whose methods update
  `funds` in place.
- `Structs` (`structs.dfy`): `Employee.takeHolidays(days:)` is a guarded
  decrement with a default of 28 days. The computed property
  `Staff.holidaysRemaining` has a getter (a function) and a setter (a
  method that reassigns `holidaysAccrued`).
- `ProtocolsAndExtensions` (`protocols_and_extensions.dfy`): the `Vehicle`
  protocol with `Car` and `Bicycle`, their truncating `estimateTime`, the
  `commute` threshold rule, the `getTravelEstimates` loop, and the
  `Book(title:pageCount:)` extension initializer.
- `Closures` (`closures.dfy`): `SayHello`, `UserData(for:)` and the
  "captain first" comparator given to `sorted(by:)`. It is proved that the
  sorted team is a permutation with "Lucas" first and everyone else
  ascending. It is also proved that, for a team in which the captain appears
  at most once, this result does not depend on the sorting algorithm.
- `Conditions` (`conditions.dfy`): the `score >= 7` pass rule, the
  `addNumbers` array that drops its oldest number once it holds more than
  three, and the empty-user-name default.
- `Optionals` (`optionals.dfy`): dictionary lookup that yields an optional,
  the `??` operator, `square(number:)` and the guard in `printSquare(for:)`.
- `Wrappers` (`wrappers.dfy`): the `Option` type that stands for Swift's `T?`.

Semantic choices:

- Swift's `/` truncates toward zero. Dafny's `/` is Euclidean, so the source's
  division is written out as `TruncDiv`, which handles negative inputs too.
- Swift's `<` on strings is modelled as the lexicographic order on characters
  (`LexLess`). Dafny's own `<` on sequences means "proper prefix", which is
  a different relation.
- Where the source prints a decision, the model returns it:
  - `takeHolidays` returns whether the request was granted.
  - `commute` returns a `CommuteDecision`.
  - `getTravelEstimates` returns the name/estimate pairs it prints.
  - `printSquare` returns a `SquareReport`.
- Swift's `sorted(by:)` is a library routine. It is modelled as an insertion
  sort (`SortByCaptain`). `SortedByCaptainIsUnique` shows that every
  permutation sorted in the comparator's order is the same list. So, for a
  team in which the captain appears at most once, any correct sorting
  algorithm gives the model's result.
- Worked examples ("scenarios") are included. Each one is a lemma, or a
  method when it goes through a state-changing class method.

## Model

| member | source | states |
|---|---|---|
| StructPartTwo.BankAccount.constructor | Struct_Part_Two.playground/Contents.swift:23 | a new account starts with zero funds |
| StructPartTwo.BankAccount.Deposit | Struct_Part_Two.playground/Contents.swift:25-27 | funds grow by exactly the amount deposited |
| StructPartTwo.BankAccount.Withdraw | Struct_Part_Two.playground/Contents.swift:28-35 | success exactly when the old funds cover the amount; on success funds drop by exactly the amount; on failure they are unchanged; non-negative funds stay non-negative |
| StructPartTwo.DepositThenWithdraw | Struct_Part_Two.playground/Contents.swift:42-45 | a new account, deposit 300, withdraw 200: the withdrawal succeeds and 100 remains |
| Structs.Employee.constructor | Structs.playground/Contents.swift:66-73 | the memberwise initializer stores the name and the given holidays |
| Structs.Employee.WithDefaultHolidays | Structs.playground/Contents.swift:73 | an employee created without holidays gets 28 |
| Structs.Employee.TakeHolidays | Structs.playground/Contents.swift:86-94 | granted exactly when strictly more days remain than are requested; then the days are subtracted and at least one day is left; a refused request changes nothing; the name is a constant |
| Structs.HolidayExamples | Structs.playground/Contents.swift:103-131 | 25 - 8 leaves 17, 14 - 5 leaves 9, the default 28 - 7 leaves 21 |
| Structs.Staff.constructor | Structs.playground/Contents.swift:145-148 | stores the name and the accrued days; no days are taken yet |
| Structs.Staff.WithDefaultHolidays | Structs.playground/Contents.swift:145-148 | the default grant is 14 accrued days and none taken |
| Structs.Staff.HolidaysRemaining | Structs.playground/Contents.swift:168-171 | the getter: remaining days plus days taken are the accrued days, that is `holidaysAccrued - holidaysTaken` |
| Structs.Staff.SetHolidaysRemaining | Structs.playground/Contents.swift:161-175 | after the setter the getter (`holidaysAccrued - holidaysTaken`) returns the value set, the days taken are unchanged, and setting the current value changes nothing |
| Structs.Staff.AddHolidaysTaken | Structs.playground/Contents.swift:179 | `holidaysTaken += days` lowers the remaining days by exactly `days` and leaves the accrued days alone |
| Structs.SkywalkerExample | Structs.playground/Contents.swift:178-181 | 14 accrued, 4 taken, then 5 remaining gives 9 accrued |
| ProtocolsAndExtensions.TruncDiv | Protocols_and_Extensions.playground/Contents.swift:77-79 | Swift's division: the quotient is the whole number of divisor-sized steps in the dividend, rounded toward zero on both signs |
| ProtocolsAndExtensions.Vehicle.Speed | Protocols_and_Extensions.playground/Contents.swift:77-142 | the divisor of each estimate (50 for a car at lines 77-79, 10 for a bicycle at lines 140-142) is positive |
| ProtocolsAndExtensions.Vehicle.EstimateTime | Protocols_and_Extensions.playground/Contents.swift:77-142 | a car's estimate (lines 77-79) counts whole steps of 50 km and a bicycle's (lines 140-142) whole steps of 10 km, rounded toward zero |
| ProtocolsAndExtensions.Vehicle.Name | Protocols_and_Extensions.playground/Contents.swift:75-138 | a car is named "Car" (line 75) and a bicycle "Bicycle" (line 138) |
| ProtocolsAndExtensions.NewCar | Protocols_and_Extensions.playground/Contents.swift:74-76 | a car is named "Car" and carries one passenger |
| ProtocolsAndExtensions.NewBicycle | Protocols_and_Extensions.playground/Contents.swift:137-139 | a bicycle is named "Bicycle" and carries one passenger |
| ProtocolsAndExtensions.Commute | Protocols_and_Extensions.playground/Contents.swift:108-114 | travels with the given vehicle and distance exactly when the estimate is at most 100 hours, otherwise rejects the vehicle as too slow |
| ProtocolsAndExtensions.CommuteDistanceBound | Protocols_and_Extensions.playground/Contents.swift:108-114 | a vehicle is accepted exactly for distances below 101 times its speed (5050 km by car, 1010 km by bicycle) |
| ProtocolsAndExtensions.CommuteExamples | Protocols_and_Extensions.playground/Contents.swift:116-149 | 100 km by car is estimated at 2 hours and travels; 50 km by bicycle at 5 hours and travels |
| ProtocolsAndExtensions.GetTravelEstimates | Protocols_and_Extensions.playground/Contents.swift:198-203 | one estimate per vehicle, in input order, each pairing the vehicle's name with its estimate for the distance |
| ProtocolsAndExtensions.TravelEstimatesExample | Protocols_and_Extensions.playground/Contents.swift:211 | for a car and a bicycle over 150 km: Car 3, then Bicycle 15 |
| ProtocolsAndExtensions.BookWithPageCount | Protocols_and_Extensions.playground/Contents.swift:371-377 | keeps the title and the page count; reading hours are the whole number of 50-page steps, rounded toward zero |
| ProtocolsAndExtensions.AtomicHabitsAgrees | Protocols_and_Extensions.playground/Contents.swift:379 | the memberwise book with 320 pages and 6 hours is what the extension initializer builds from 320 pages |
| Closures.SayHello | Closures.playground/Contents.swift:52-54 | the greeting is the name followed by ", welcome to Swift." |
| Closures.SayHelloInjective | Closures.playground/Contents.swift:52-54 | different names get different greetings |
| Closures.UserData | Closures.playground/Contents.swift:83-89 | "Andre Rodriguez" exactly for id 1986, "Anonymous" for every other id |
| Closures.LexLess | Closures.playground/Contents.swift:117 | Swift's string `<`: nothing sorts before the empty string, a proper prefix sorts first, and a smaller first character sorts first |
| Closures.LexLessIrreflexive | Closures.playground/Contents.swift:117 | no name sorts before itself |
| Closures.LexLessTransitive | Closures.playground/Contents.swift:117 | string order is transitive |
| Closures.LexLessTrichotomous | Closures.playground/Contents.swift:117 | two names are equal or one sorts before the other |
| Closures.LexLessAsymmetric | Closures.playground/Contents.swift:117 | no two names each sort before the other |
| Closures.CaptainFirst | Closures.playground/Contents.swift:111-118 | the comparator: true whenever the first name is "Lucas"; otherwise false whenever the second is "Lucas"; otherwise exactly the string order of the two names |
| Closures.CaptainFirstNotIrreflexive | Closures.playground/Contents.swift:112-113 | the comparator says "Lucas" comes before "Lucas", so it is a strict order only when the captain appears at most once |
| Closures.CaptainFirstAsymmetric | Closures.playground/Contents.swift:111-118 | away from the pair (captain, captain), the comparator never puts each of two names before the other |
| Closures.NotAfterTransitive | Closures.playground/Contents.swift:111-118 | "may come before" (the comparator negated with its arguments swapped) is transitive |
| Closures.CaptainFirstTiesAreEqual | Closures.playground/Contents.swift:111-118 | names the comparator cannot separate are the same name |
| Closures.Insert | Closures.playground/Contents.swift:111 | inserting a name yields the old names plus that one name |
| Closures.SortByCaptain | Closures.playground/Contents.swift:111 | `sorted(by:)` returns a permutation of the team |
| Closures.InsertSorted | Closures.playground/Contents.swift:111-118 | inserting a name into a list in the comparator's order keeps it in that order, when the captain appears at most once |
| Closures.SortByCaptainSorted | Closures.playground/Contents.swift:111-118 | the sorted team is in the comparator's order when the captain appears at most once |
| Closures.CaptainOnlyAtFront | Closures.playground/Contents.swift:112-115 | in the comparator's order the captain can stand only at the front |
| Closures.SortedTeamShape | Closures.playground/Contents.swift:111-118 | a list in the comparator's order with the captain at most once has the captain, when present, first and nowhere else, and is ascending elsewhere |
| Closures.CaptainFirstThenAscending | Closures.playground/Contents.swift:96-118 | with the captain at most once, the sorted team is a permutation of the team, with "Lucas" first when present and all other names ascending after it |
| Closures.SortedByCaptainIsUnique | Closures.playground/Contents.swift:111-118 | two permutations of the same names that are both in the comparator's order are equal |
| Closures.SortByCaptainIsSortedPermutation | Closures.playground/Contents.swift:111-118 | the sorted team is the permutation in the comparator's order, whatever algorithm sorts it |
| Closures.TeamCaptainName | Closures.playground/Contents.swift:96-119 | the team sorts to Lucas, Andre, C3PO, Graci, R2-D2 |
| Conditions.Passes | Conditions.playground/Contents.swift:16 | a score passes exactly when it is at least 7 |
| Conditions.PassesUpwardClosed | Conditions.playground/Contents.swift:16-18 | any score at or above a passing score also passes |
| Conditions.ScoreOfEightPasses | Conditions.playground/Contents.swift:14-18 | a score of 8 passes and a score of 6 does not |
| Conditions.AppendCapped | Conditions.playground/Contents.swift:42-50 | the new number comes last; when the count after appending is over three exactly the oldest number is dropped, otherwise nothing is; survivors keep their order |
| Conditions.AppendCappedKeepsMostRecent | Conditions.playground/Contents.swift:42-50 | from at most three numbers, the result holds at most three: the most recent ones, in order |
| Conditions.RecentNumbers.constructor | Conditions.playground/Contents.swift:42 | the array starts with the given numbers, at most three of them |
| Conditions.RecentNumbers.Add | Conditions.playground/Contents.swift:45-50 | the in-place append and removal leave exactly the capped append of the old numbers, and at most three numbers |
| Conditions.AddNumbersExample | Conditions.playground/Contents.swift:42-53 | [9, 56, 16] with 37 added becomes [56, 16, 37] |
| Conditions.DefaultUserName | Conditions.playground/Contents.swift:82-96 | an empty name becomes "Anonymous", any other name is kept, so the name is never empty |
| Conditions.UserNameExamples | Conditions.playground/Contents.swift:82-96 | "Oxford##" is kept and the empty name becomes "Anonymous" |
| Optionals.Lookup | Optionals.playground/Contents.swift:11-15 | the lookup holds a value exactly when the key is present, and then it is that key's value |
| Optionals.Coalesce | Optionals.playground/Contents.swift:199-208 | `??` gives the contained value when there is one and the default otherwise, always a plain value |
| Optionals.LookupOrDefault | Optionals.playground/Contents.swift:210-213 | the subscript with a default gives the key's value or the default |
| Optionals.CoalescedLookupIsLookupOrDefault | Optionals.playground/Contents.swift:210-215 | `m[key] ?? d` equals `m[key, default: d]` for every map, key and default |
| Optionals.CoalesceSome | Optionals.playground/Contents.swift:203-205 | a default never overrides a value that is present |
| Optionals.OppositeExamples | Optionals.playground/Contents.swift:11-45 | "Peach" has no opposite and "Mario"'s is "Wario" |
| Optionals.SerenityHasNoCaptain | Optionals.playground/Contents.swift:187-201 | "Serenity" is not a key, so `?? "N/A"` gives "N/A" |
| Optionals.AuthorName | Optionals.playground/Contents.swift:229-235 | the author when present, "Anonymous" otherwise |
| Optionals.BeowulfIsAnonymous | Optionals.playground/Contents.swift:234-235 | Beowulf with a nil author is by "Anonymous" |
| Optionals.Square | Optionals.playground/Contents.swift:89-91 | a square is never negative and never below the number's magnitude |
| Optionals.PrintSquare | Optionals.playground/Contents.swift:139-145 | a missing number takes the early return; a present one is reported with its square |
| Optionals.PrintSquareExamples | Optionals.playground/Contents.swift:110-146 | nil is missing input, and 3 is reported with 9 |

## Left out

- Printing: every `print`, the `travel(distance:)` messages, and the `didSet`/`willSet` observers of `Game` only write to the console, so they are not modelled.
- Swift `Int` overflow traps are not modelled: every integer is unbounded.
- Dafny has no private fields, so `funds` is a public field. Only `Deposit` and `Withdraw` assign it, by convention. The worked example `DepositThenWithdraw` reads it directly, which Swift would allow only with `private(set)`.
- The structs `bankAccount`, `Employee`, `Staff` and the `addNumbers` array are values in Swift but classes (references) here. No behaviour is lost, because the source never copies an instance and then changes one of the copies.
- Vehicles are modelled as a closed datatype with `Car` and `Bicycle`. Other types could conform to the open `Vehicle` protocol, but none exists in the source.
- `currentPassengers` is a settable protocol property. It is never set, so it is kept as a datatype field with no setter.
- `LexLess` is code-point order on characters. Swift compares strings by Unicode canonical equivalence. The two agree on the ASCII names that are used.
- `SortByCaptain` is an insertion sort rather than Swift's library algorithm. For a team in which the captain appears at most once, `SortedByCaptainIsUnique` shows that the result is the same. With the captain twice the comparator is not a strict weak order, no permutation is in its order, and the model promises nothing about the order Swift would produce. The plain `team.sorted()` call is a library call and is not modelled.
- `Square` and `PrintSquare` state no bound for overflow, because Swift's trap on `number * number` is outside the model.
- String extensions `trimmed()`, `trim(_:)` and `lines` depend on Foundation character sets, so they are not modelled. `Int(input) ?? 0` depends on Foundation parsing and is not modelled either.
- `Player.init` (`Int.random`) and `randomElement()` depend on randomness, so they are not modelled.
- Class.playground, the print-only loop playgrounds (including the While_Loop countdown), the declaration-only playgrounds and the `Double` temperature conversion have no logic of their own beyond printing, library calls or floating point, so they are not modelled.
- Optionals.Square: its contract states only the sign and magnitude bounds of the square, not the product `number * number` itself, which is its body.
