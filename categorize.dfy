/**
 * data_processor.py, `categorize_transactions`: each transaction takes the first
 * category, in declaration order, one of whose patterns occurs in its lower-cased
 * description; a transaction no pattern matches keeps the category it had.
 */
module Categorize {
  import opened Wrappers
  import opened Text
  import opened Records
  import Seqs

  /**
   * A pattern of the table is a regular expression whose only metacharacter is `.`,
   * any character but a newline: `sam\'s club` is written "sam's club" and `disney+`
   * (which occurs exactly where "disney" occurs) is written "disney".
   */
  predicate CharMatches(p: char, c: char)
  {
    if p == '.' then c != '\n' else c == p
  }

  predicate MatchesAt(s: string, i: nat, pattern: string)
  {
    i + |pattern| <= |s| && forall k :: 0 <= k < |pattern| ==> CharMatches(pattern[k], s[i + k])
  }

  /** `re.search(pattern, s)` succeeds. */
  predicate Search(pattern: string, s: string)
  {
    exists i :: 0 <= i <= |s| && MatchesAt(s, i, pattern)
  }

  /** A pattern without `.` is found exactly where it occurs as a substring. */
  lemma SearchLiteral(pattern: string, s: string)
    requires forall k :: 0 <= k < |pattern| ==> pattern[k] != '.'
    ensures Search(pattern, s) <==> Contains(s, pattern)
  {
    ContainsIff(s, pattern);
    if Contains(s, pattern) {
      var i: nat :| StartsAt(s, i, pattern);
      forall k | 0 <= k < |pattern|
        ensures CharMatches(pattern[k], s[i + k])
      {
        assert s[i + k] == s[i..i + |pattern|][k];
      }
      assert MatchesAt(s, i, pattern);
    }
    if Search(pattern, s) {
      var i :| 0 <= i <= |s| && MatchesAt(s, i, pattern);
      assert s[i..i + |pattern|] == pattern;
      assert StartsAt(s, i, pattern);
    }
  }

  /** `category_patterns`, in its declaration order. */
  const Taxonomy: seq<(string, seq<string>)> := [
    ("Dining", [
      "restaurant", "dining", "café", "cafe", "coffee", "bakery",
      "starbucks", "dunkin", "mcdonald", "burger", "pizza", "taco",
      "chipotle", "wendy", "subway", "grubhub", "doordash", "ubereats",
      "deli", "bar & grill", "bistro", "steakhouse", "sushi"]),
    ("Groceries", [
      "grocery", "market", "supermarket", "food market", "whole foods",
      "kroger", "safeway", "trader joe", "aldi", "walmart", "target",
      "costco", "sam's club", "publix", "wegmans", "instacart"]),
    ("Gas & Automotive", [
      "gas", "fuel", "shell", "exxon", "mobil", "chevron", "bp",
      "auto parts", "autozone", "jiffy lube", "meineke", "valvoline",
      "car wash", "parking", "garage", "toll"]),
    ("Travel", [
      "airline", "flight", "delta", "united", "american air", "southwest",
      "jetblue", "airbnb", "hotel", "motel", "inn", "resort", "marriott",
      "hilton", "hyatt", "expedia", "travelocity", "booking.com", "uber",
      "lyft", "taxi", "car rental", "hertz", "avis", "enterprise"]),
    ("Entertainment", [
      "movie", "cinema", "theater", "theatre", "netflix", "hulu",
      "disney", "spotify", "apple music", "concert", "ticketmaster",
      "amazon prime", "hbo", "youtube", "game", "playstation", "xbox",
      "theme park", "museum", "zoo", "aquarium"]),
    ("Shopping", [
      "amazon", "walmart", "target", "best buy", "macy", "nordstrom",
      "clothing", "apparel", "shoe", "jewelry", "accessory", "cosmetic",
      "sephora", "ulta", "mall", "department store", "nike", "adidas",
      "apple store", "microsoft", "home depot", "lowe", "ikea", "furniture"]),
    ("Health & Medical", [
      "pharmacy", "drug store", "cvs", "walgreens", "rite aid", "doctor",
      "hospital", "clinic", "medical", "dental", "healthcare", "insurance",
      "vision", "optometrist", "chiropractor", "therapy"]),
    ("Utilities & Bills", [
      "electric", "water", "gas bill", "utility", "phone", "mobile",
      "internet", "cable", "tv", "telecom", "at&t", "verizon", "comcast",
      "xfinity", "spectrum", "bill pay", "utilities"]),
    ("Subscriptions & Memberships", [
      "subscription", "membership", "monthly", "annual fee", "gym",
      "fitness", "magazine", "newspaper", "software", "service fee",
      "recurring", "monthly service"]),
    ("Education", [
      "tuition", "school", "university", "college", "campus", "education",
      "book store", "textbook", "course", "library", "student"]),
    ("Income & Transfers", [
      "deposit", "transfer", "payment", "payroll", "direct deposit",
      "venmo", "paypal", "zelle", "cash app", "refund", "reimbursement"])
  ]

  const Dining := 0
  const Groceries := 1
  const GasAutomotive := 2
  const Shopping := 5
  const UtilitiesBills := 7

  /** `any(re.search(pattern, description, re.IGNORECASE) for pattern in patterns)`. */
  predicate AnyPattern(patterns: seq<string>, s: string)
  {
    exists k :: 0 <= k < |patterns| && Search(patterns[k], s)
  }

  /** Which categories match a description (`row['Description'].lower()`). */
  function CategoryMarks(description: string): (r: seq<bool>)
    ensures |r| == |Taxonomy|
    ensures forall k :: 0 <= k < |Taxonomy| ==> r[k] == AnyPattern(Taxonomy[k].1, Lower(description))
  {
    seq(|Taxonomy|, k requires 0 <= k < |Taxonomy| => AnyPattern(Taxonomy[k].1, Lower(description)))
  }

  /** The index of the category a description gets: the first whose patterns match. */
  function Classify(description: string): (r: Option<nat>)
    ensures r.Some? ==> r.value < |Taxonomy| && AnyPattern(Taxonomy[r.value].1, Lower(description))
    ensures r.Some? ==> forall j :: 0 <= j < r.value ==> !AnyPattern(Taxonomy[j].1, Lower(description))
    ensures r.None? ==> forall j :: 0 <= j < |Taxonomy| ==> !AnyPattern(Taxonomy[j].1, Lower(description))
  {
    Seqs.FirstTrue(CategoryMarks(description))
  }

  /** The inner loop over the categories, leaving it at the first match. */
  method FirstMatchingCategory(description: string) returns (found: Option<nat>)
    ensures found == Classify(description)
  {
    var lowered := Lower(description);
    ghost var marks := CategoryMarks(description);
    for k := 0 to |Taxonomy|
      invariant Seqs.FirstTrue(marks[..k]).None?
    {
      Seqs.FirstTrueStep(marks, k);
      if AnyPattern(Taxonomy[k].1, lowered) {
        Seqs.FirstTruePrefix(marks, k + 1);
        return Some(k);
      }
    }
    assert marks[..|Taxonomy|] == marks;
    found := None;
  }

  /** A matched description learns its category; any other keeps the one it has. */
  function Recategorize(t: Transaction): (r: Transaction)
    ensures r.(category := t.category) == t
    ensures Classify(t.description).Some? ==> r.category == Taxonomy[Classify(t.description).value].0
    ensures Classify(t.description).None? ==> r.category == t.category
  {
    match Classify(t.description)
    case Some(k) => t.(category := Taxonomy[k].0)
    case None => t
  }

  /** The copy before the loop: without a Category column, every row is 'Uncategorized'. */
  /** The loop's update, given the category the search found. */
  lemma RecategorizeBy(t: Transaction, found: Option<nat>)
    requires found == Classify(t.description)
    ensures found.Some? ==> found.value < |Taxonomy| && Recategorize(t) == t.(category := Taxonomy[found.value].0)
    ensures found.None? ==> Recategorize(t) == t
  {
  }

  function Initial(t: Transaction, hasCategory: bool): Transaction
  {
    if hasCategory then t else t.(category := "Uncategorized")
  }

  /** The table `categorize_transactions` returns. */
  function Categorized(data: seq<Transaction>, hasCategory: bool): (r: seq<Transaction>)
    ensures |r| == |data|
  {
    seq(|data|, k requires 0 <= k < |data| => Recategorize(Initial(data[k], hasCategory)))
  }

  /**
   * `categorize_transactions`: categorises a copy of the table in place, row by row,
   * and lists the categories present in the order they first appear.
   */
  method CategorizeTransactions(data: array<Transaction>, hasCategory: bool)
    returns (df: array<Transaction>, categories: seq<string>)
    ensures fresh(df) && df[..] == Categorized(data[..], hasCategory)
    ensures data[..] == old(data[..])
    ensures categories == Seqs.Distinct(CategoryColumn(df[..]))
  {
    df := new Transaction[data.Length];
    forall i | 0 <= i < data.Length {
      df[i] := data[i];
    }
    if !hasCategory {
      forall i | 0 <= i < df.Length {
        df[i] := df[i].(category := "Uncategorized");
      }
    }
    for i := 0 to df.Length
      invariant forall k :: 0 <= k < i ==> df[k] == Recategorize(Initial(data[k], hasCategory))
      invariant forall k :: i <= k < df.Length ==> df[k] == Initial(data[k], hasCategory)
    {
      var found := FirstMatchingCategory(df[i].description);
      RecategorizeBy(df[i], found);
      if found.Some? {
        df[i] := df[i].(category := Taxonomy[found.value].0);
      }
    }
    assert df[..] == Categorized(data[..], hasCategory);
    categories := Seqs.Distinct(CategoryColumn(df[..]));
  }

  /** Categorising an already categorised table changes no category. */
  lemma {:induction false} CategorizedIdempotent(data: seq<Transaction>, hasCategory: bool)
    ensures Categorized(Categorized(data, hasCategory), true) == Categorized(data, hasCategory)
  {
    var once := Categorized(data, hasCategory);
    forall k | 0 <= k < |data|
      ensures Recategorize(once[k]) == once[k]
    {
      var t := Initial(data[k], hasCategory);
      assert once[k] == Recategorize(t);
      assert once[k].description == t.description;
    }
  }

  /** The returned category list holds each category of the table once, in order of first appearance. */
  lemma CategoryListMeaning(df: seq<Transaction>)
    ensures Seqs.NoDup(Seqs.Distinct(CategoryColumn(df)))
    ensures forall c :: c in Seqs.Distinct(CategoryColumn(df)) <==> exists k :: 0 <= k < |df| && df[k].category == c
    ensures var d := Seqs.Distinct(CategoryColumn(df));
      forall i, j :: 0 <= i < j < |d| ==> Seqs.IndexOf(CategoryColumn(df), d[i]) < Seqs.IndexOf(CategoryColumn(df), d[j])
  {
    Seqs.DistinctFirstAppearance(CategoryColumn(df));
  }

  /** A literal pattern of category `k` occurring in the description makes it match. */
  lemma LiteralMatches(description: string, k: nat, p: nat)
    requires k < |Taxonomy| && p < |Taxonomy[k].1|
    requires forall j :: 0 <= j < |Taxonomy[k].1[p]| ==> Taxonomy[k].1[p][j] != '.'
    requires Contains(Lower(description), Taxonomy[k].1[p])
    ensures CategoryMarks(description)[k]
  {
    SearchLiteral(Taxonomy[k].1[p], Lower(description));
  }

  /**
   * A description mentioning walmart or target is never Shopping: Groceries, listed
   * earlier, lists both; it is Groceries unless a Dining pattern matches first.
   */
  lemma WalmartAndTargetNeverShopping(description: string)
    requires Contains(Lower(description), "walmart") || Contains(Lower(description), "target")
    ensures Classify(description) != Some(Shopping)
    ensures !CategoryMarks(description)[Dining] ==> Classify(description) == Some(Groceries)
  {
    assert Taxonomy[Groceries].1[9] == "walmart" && Taxonomy[Groceries].1[10] == "target";
    if Contains(Lower(description), "walmart") {
      LiteralMatches(description, Groceries, 9);
    } else {
      LiteralMatches(description, Groceries, 10);
    }
  }

  /** Order decides: "Walmart Deli" is Dining, not Groceries. */
  lemma WalmartDeliIsDining()
    ensures Classify("Walmart Deli") == Some(Dining)
  {
    LowerWalmartDeli();
    ContainsAt("walmart deli", 8, "deli");
    DiningHasDeli();
    LiteralMatches("Walmart Deli", Dining, 18);
  }

  lemma LowerWalmartDeli()
    ensures Lower("Walmart Deli") == "walmart deli" && "walmart deli"[8..12] == "deli"
  {
  }

  lemma DiningHasDeli()
    ensures 18 < |Taxonomy[Dining].1| && Taxonomy[Dining].1[18] == "deli"
    ensures forall j :: 0 <= j < |Taxonomy[Dining].1[18]| ==> Taxonomy[Dining].1[18][j] != '.'
  {
  }

  /**
   * Order decides again: the Utilities pattern "gas bill" never decides a category,
   * as "gas" of Gas & Automotive, listed earlier, occurs wherever it does.
   */
  lemma GasBillNeverUtilities(description: string)
    requires Contains(Lower(description), "gas bill")
    ensures Classify(description) != Some(UtilitiesBills)
    ensures !CategoryMarks(description)[Dining] && !CategoryMarks(description)[Groceries] ==>
      Classify(description) == Some(GasAutomotive)
  {
    var s := Lower(description);
    assert "gas bill"[..3] == "gas";
    ContainsAt("gas bill", 0, "gas");
    ContainsTrans(s, "gas bill", "gas");
    assert Taxonomy[GasAutomotive].1[0] == "gas";
    LiteralMatches(description, GasAutomotive, 0);
  }
}
