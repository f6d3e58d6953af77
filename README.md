# Production suggestion, verified model

The inventory backend answers `GET /production/suggested` with a list of
production suggestions: for every product, how many whole units it can make
from the raw materials now in stock, keeping only the products it can make at
least once, ranked by total value (units times unit value), highest first.
This project models that computation and the suggestion value object in
Dafny and proves what the endpoint promises about its answer.

- `Model`: the three entities the endpoint reads (product, raw material,
  bill-of-materials line) as values; associations hold the ids they join.
- `SuggestionDto`: the suggestion value object and its constructor, which
  prices the quantity at the product's unit value.
- `Production`: the endpoint. Specification functions (`StockMap`,
  `EntriesOf`, `MaxUnits`, `Candidate`, `Collect`, `Candidates`, `SuggestedProduction`)
  and the imperative methods that mirror the code's loops: the stock map filled
  one raw material at a time, the running minimum over a product's entries, the
  suggestion list appended to, then sorted in place. Each method is proved equal
  to its function.
- `Ranking`: the in-place stable sort by total value, descending, as an
  insertion sort on an array, proved equal to a functional stable insertion sort,
  with the proof that any stable descending sort gives the same sequence.
- `ProductionProperties`: feasibility and maximality of every quantity,
  which products appear, ordering, stability, and that entries with
  non-positive need change nothing.
- `SentinelMinimum`: the running minimum as the code writes it, with an
  `Integer.MAX_VALUE` start value, and the input it mishandles.
- `ProductionExamples`: a worked case with three products.

Unit values and total values are Dafny `real`s, so `25.5 × 2` is exactly
`51`. Ids, stock and needs are unbounded integers. Java's `/` is modelled as
truncation toward zero (`TruncDiv`), so negative stock needs no precondition:
it gives a quotient of zero or less and the product is dropped, as in the code.
The three lists the endpoint loads from the database are the method's
parameters.

The code has no "unconfigured" flag and no include-zero
option: products without a limiting entry are left out, not reported with
quantity 0. It has no tie-break by product code: equal values keep product
order, because the sort is stable. It has no fair-share allocation of stock
across products: each product is judged against the full stock. It has no
timeout or cancellation.

## Model

| member | source | states |
|---|---|---|
| `SuggestionDto.NewSuggestion` | inventory-management-backend/src/main/java/com/example/inventory/management/dto/ProductionSuggestionDTO.java:23-28 | the suggestion keeps the product and quantity unchanged, and its total value is unit value times quantity |
| `SuggestionDto.TotalValueExamples` | inventory-management-backend/src/test/java/com/example/inventory/management/ProductionSuggestionDTOTest.java:14-54 | 10 × 5 gives 50, quantity 0 gives 0, 25.5 × 2 gives 51 |
| `Production.TruncDiv` | inventory-management-backend/src/main/java/com/example/inventory/management/resource/ProductionResource.java:70 | the quotient is truncated toward zero: q·b ≤ a < (q+1)·b for a ≥ 0, and (q−1)·b < a ≤ q·b for a < 0 |
| `ProductionProperties.EntriesOfMember` | inventory-management-backend/src/main/java/com/example/inventory/management/resource/ProductionResource.java:55-57 | an entry is in a product's list exactly when it is an input entry for that product id |
| `Production.Candidate` | inventory-management-backend/src/main/java/com/example/inventory/management/resource/ProductionResource.java:59-83 | a product gives a suggestion exactly when its maximum exists and is positive, and the suggestion is that maximum priced by the constructor |
| `Production.BuildStockMap` | inventory-management-backend/src/main/java/com/example/inventory/management/resource/ProductionResource.java:43-46 | the map filled in the loop is `StockMap` of the raw materials |
| `Production.ProducibleUnits` | inventory-management-backend/src/main/java/com/example/inventory/management/resource/ProductionResource.java:65-78 | the running minimum over the entries, skipping non-positive needs, is `MaxUnits` |
| `Production.GetSuggestedProduction` | inventory-management-backend/src/main/java/com/example/inventory/management/resource/ProductionResource.java:36-91 | the returned list is `SuggestedProduction`: the candidates in product order, sorted stably by total value, highest first |
| `Ranking.SortByTotalValueDesc` | inventory-management-backend/src/main/java/com/example/inventory/management/resource/ProductionResource.java:88 | the in-place sort leaves the array holding `SortByValue` of its old contents |
| `Ranking.InsertIntoPrefix` | inventory-management-backend/src/main/java/com/example/inventory/management/resource/ProductionResource.java:88 | one insertion step: the sorted prefix gains the next suggestion at its stable place, and the rest of the array is unchanged |
| `Ranking.ShiftCheaperRight` | inventory-management-backend/src/main/java/com/example/inventory/management/resource/ProductionResource.java:88 | the suggestions of the sorted prefix worth less than the one being inserted move one place right, the others stay, and the returned index is the stable place for it |
| `Ranking.SortByValueSorted` | inventory-management-backend/src/main/java/com/example/inventory/management/resource/ProductionResource.java:88 | the sorted list is non-increasing in total value |
| `Ranking.SortByValuePermutes` | inventory-management-backend/src/main/java/com/example/inventory/management/resource/ProductionResource.java:88 | the sorted list is a permutation of its input |
| `Ranking.SortByValueStable` | inventory-management-backend/src/main/java/com/example/inventory/management/resource/ProductionResource.java:88 | suggestions of equal total value keep their input order |
| `Ranking.StableSortUnique` | inventory-management-backend/src/main/java/com/example/inventory/management/resource/ProductionResource.java:88 | two lists that are both sorted descending and agree on every equal-value group are equal |
| `Ranking.StableSortIsSortByValue` | inventory-management-backend/src/main/java/com/example/inventory/management/resource/ProductionResource.java:88 | any stable descending sort of a list, such as the runtime's list sort, gives `SortByValue` of it |
| `ProductionProperties.StockMapKeys` | inventory-management-backend/src/main/java/com/example/inventory/management/resource/ProductionResource.java:43-46 | an id is in the stock map exactly when some raw material has it |
| `ProductionProperties.StockMapLastWins` | inventory-management-backend/src/main/java/com/example/inventory/management/resource/ProductionResource.java:43-46 | an id in the stock map maps to the stock of the last raw material with that id, since later puts overwrite earlier ones |
| `ProductionProperties.MaxUnitsDefinedIff` | inventory-management-backend/src/main/java/com/example/inventory/management/resource/ProductionResource.java:52-81 | a maximum exists exactly when some entry of the product has positive need |
| `ProductionProperties.MaxUnitsIsLeastQuotient` | inventory-management-backend/src/main/java/com/example/inventory/management/resource/ProductionResource.java:65-72 | the maximum is at most every positive-need entry's quotient stock / need, a missing material counting as stock 0, and equals one of them |
| `ProductionProperties.MaxUnitsFeasible` | inventory-management-backend/src/main/java/com/example/inventory/management/resource/ProductionResource.java:70-72 | a maximum of at least one unit needs no more of any material than is in stock |
| `ProductionProperties.MaxUnitsMaximal` | inventory-management-backend/src/main/java/com/example/inventory/management/resource/ProductionResource.java:70-72 | one unit more than the maximum needs more of some material than is in stock |
| `ProductionProperties.FeasibleAtMostMaxUnits` | inventory-management-backend/src/main/java/com/example/inventory/management/resource/ProductionResource.java:70-72 | every non-negative unit count that fits the stock is at most the maximum |
| `ProductionProperties.FeasibleIffAtMostMaxUnits` | inventory-management-backend/src/main/java/com/example/inventory/management/resource/ProductionResource.java:65-78 | a positive unit count fits the stock exactly when it is at most the maximum |
| `ProductionProperties.MaxUnitsIgnoresNonPositive` | inventory-management-backend/src/main/java/com/example/inventory/management/resource/ProductionResource.java:68-77 | removing the entries with need zero or less leaves the maximum unchanged |
| `ProductionProperties.CandidatesAppend` | inventory-management-backend/src/main/java/com/example/inventory/management/resource/ProductionResource.java:51-84 | products are judged independently: the candidates of two product lists joined are the two candidate lists joined, so no product uses up stock another one sees |
| `ProductionProperties.SuggestionIsCandidate` | inventory-management-backend/src/main/java/com/example/inventory/management/resource/ProductionResource.java:51-83 | every suggestion in the ranked list is for an input product, has at least one unit, is priced by the constructor, and its quantity is that product's maximum |
| `ProductionProperties.SuggestionIsMaximalAndFeasible` | inventory-management-backend/src/main/java/com/example/inventory/management/resource/ProductionResource.java:51-83 | every suggested quantity fits the stock, and one unit more does not |
| `ProductionProperties.SuggestedIff` | inventory-management-backend/src/main/java/com/example/inventory/management/resource/ProductionResource.java:51-83 | a product is suggested exactly when it is an input product, has an entry with positive need, and the stock allows one unit |
| `ProductionProperties.NoPositiveNeedNeverSuggested` | inventory-management-backend/src/main/java/com/example/inventory/management/resource/ProductionResource.java:60-62 | a product with no entries, or only entries with need zero or less, is never suggested |
| `ProductionProperties.SuggestionsRanked` | inventory-management-backend/src/main/java/com/example/inventory/management/resource/ProductionResource.java:88 | the answer is non-increasing in total value, a permutation of the candidates, and keeps product order among equal values |
| `ProductionProperties.ProductsAtMostOnce` | inventory-management-backend/src/main/java/com/example/inventory/management/resource/ProductionResource.java:51-82 | each suggestion occurs in the answer at most as often as its product is listed in the input, and one product never gets two different suggestions |
| `ProductionProperties.CandidateCount` | inventory-management-backend/src/main/java/com/example/inventory/management/resource/ProductionResource.java:51-84 | each product contributes at most one candidate per listing, so a candidate occurs at most as often as its product is listed |
| `ProductionProperties.CandidatesIgnoreNonPositive` | inventory-management-backend/src/main/java/com/example/inventory/management/resource/ProductionResource.java:68-81 | dropping every entry with need zero or less leaves every product's candidate unchanged |
| `ProductionProperties.NonPositiveEntriesIrrelevant` | inventory-management-backend/src/main/java/com/example/inventory/management/resource/ProductionResource.java:68-81 | dropping every entry with need zero or less leaves the answer unchanged |
| `SentinelMinimum.SentinelUnitsIsCappedMaxUnits` | inventory-management-backend/src/main/java/com/example/inventory/management/resource/ProductionResource.java:52-72 | the code's accumulator is the Option maximum capped at Integer.MAX_VALUE, with no limiting entry read as Integer.MAX_VALUE |
| `SentinelMinimum.AsWrittenAgreesBelowIntMax` | inventory-management-backend/src/main/java/com/example/inventory/management/resource/ProductionResource.java:81 | while the maximum is below Integer.MAX_VALUE the code's test keeps exactly the products the model keeps |
| `SentinelMinimum.AsWrittenDropsFullStock` | inventory-management-backend/src/main/java/com/example/inventory/management/resource/ProductionResource.java:81 | one entry needing one unit of a material with stock Integer.MAX_VALUE: the code's test drops the product, the model suggests Integer.MAX_VALUE units |
| `ProductionExamples.ExampleChairTableLamp` | inventory-management-backend/src/main/java/com/example/inventory/management/resource/ProductionResource.java:36-91 | chair (10, needs 2 wood of 10 and 1 screw of 3), table (20, needs 1 screw), lamp (no entries) give table 3 units worth 60, then chair 3 units worth 30 |

## Left out

- Loading the three lists from the database (`listAll`), the transaction and JSON serialisation: the lists are parameters.
- IEEE double arithmetic of `value` and `totalValue`, and how the comparator orders NaN and signed zeros: values are exact reals.
- Java's 64-bit `Long` ids and the 32-bit `int` range of stock, needs and quantities: integers are unbounded. The one place where the range shows, the Integer.MAX_VALUE start value, is modelled in `SentinelMinimum`.
- Names and codes of raw materials are carried but never read; a product's name and code likewise.
- The CRUD endpoints for products, raw materials and their associations, and the web front end: they do not take part in the computation.
- `Production.GetSuggestedProduction`: returns the sorted list as a value; the list's identity and the aliasing of the product objects it holds are not modelled.

## Findings

| source | as written | input that shows it | evidently intended | confidence | as-written member | corrected member |
|---|---|---|---|---|---|---|
| inventory-management-backend/src/main/java/com/example/inventory/management/resource/ProductionResource.java:52-81 | the running minimum starts at Integer.MAX_VALUE and a result still equal to it is read as "no entry limited the product", so the product is dropped | one product with one entry needing 1 unit of a raw material whose stock is 2147483647 | the product is suggested with 2147483647 units, since that entry did limit it | not executed | `SentinelMinimum.AsWrittenDropsFullStock` | `Production.Candidate` |
