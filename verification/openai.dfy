/** The OpenAI category-suggestion provider: the three prompt sections it
    formats (available categories, categorized examples, transactions to
    categorize) and the conversion of the structured response into
    suggestions. Rendering the prompt template and the API call itself are
    one parameter, `complete`. */
module OpenAi {
  import opened Wrappers
  import opened Text
  import opened Transactions

  /** A user-defined category. */
  datatype Category = Category(id: int, name: string, description: Option<string>, parentId: Option<int>)

  /** One entry of the structured response. */
  datatype Categorization = Categorization(transactionId: string, categoryId: Option<int>, reasoning: Option<string>)

  /** A suggested category for one transaction. */
  datatype CategorySuggestion =
    CategorySuggestion(transactionId: string, categoryId: Option<int>, confidence: Option<real>, reasoning: Option<string>)

  /** The values substituted into the prompt template. */
  datatype Prompt = Prompt(categories: string, examples: string, transactions: string)

  const NoCategories: string := "No categories available."
  const NoExamples: string := "No historical examples available."

  /** At most this many historical transactions are shown as examples. */
  const MaxExamples: nat := 50

  /** A text with no line break in it. */
  predicate OneLine(s: string) {
    '\n' !in s
  }

  /** `str(i)` for an integer. */
  function IntToString(i: int): (s: string)
    ensures OneLine(s)
    ensures i >= 0 ==> s == NatToString(i) && ParseNat(s) == Some(i)
    ensures i < 0 ==> s == "-" + NatToString(-i) && ParseNat(s[1..]) == Some(-i)
  {
    NatToStringDigits(if i < 0 then -i else i);
    ParseNatToString(if i < 0 then -i else i);
    if i < 0 then "-" + NatToString(-i) else NatToString(i)
  }

  /** `f"{x}"` for an optional integer: `None` when absent. */
  function OptionalIntText(x: Option<int>): (s: string)
    ensures OneLine(s)
    ensures x.None? ==> s == "None"
    ensures x.Some? ==> s == IntToString(x.value)
  {
    match x
    case None => "None"
    case Some(i) => IntToString(i)
  }

  // ---------------------------------------------------------------------
  // Categories

  /** `- ID {id}: {name}`, followed by ` - {description}` when the category
      has a non-empty description. */
  function CategoryLine(c: Category): string {
    var desc := if c.description.Some? && c.description.value != "" then " - " + c.description.value else "";
    "- ID " + IntToString(c.id) + ": " + c.name + desc
  }

  /** The line of each category, in order. */
  function CategoryLines(categories: seq<Category>): seq<string> {
    seq(|categories|, i requires 0 <= i < |categories| => CategoryLine(categories[i]))
  }

  /** What `_format_categories` returns. */
  function CategoriesText(categories: seq<Category>): string {
    if categories == [] then NoCategories else Join("\n", CategoryLines(categories))
  }

  /** `_format_categories`: one line per category, joined by line breaks;
      the fixed sentence when there is no category. */
  method FormatCategories(categories: seq<Category>) returns (text: string)
    ensures text == CategoriesText(categories)
  {
    if |categories| == 0 {
      return NoCategories;
    }
    var lines: seq<string> := [];
    for i := 0 to |categories|
      invariant |lines| == i
      invariant forall k :: 0 <= k < i ==> lines[k] == CategoryLine(categories[k])
    {
      lines := lines + [CategoryLine(categories[i])];
    }
    assert lines == CategoryLines(categories);
    text := Join("\n", lines);
  }

  /** A category whose name and description have no line break. */
  predicate CategoryOneLine(c: Category) {
    OneLine(c.name) && (c.description.Some? ==> OneLine(c.description.value))
  }

  /** A category line starts with the category's id and name and carries
      the description exactly when it is non-empty; it stays one line when
      the name and description do. */
  lemma CategoryLineParts(c: Category)
    ensures "- ID " + IntToString(c.id) + ": " + c.name <= CategoryLine(c)
    ensures c.description.Some? && c.description.value != "" ==>
              CategoryLine(c) == "- ID " + IntToString(c.id) + ": " + c.name + " - " + c.description.value
    ensures !(c.description.Some? && c.description.value != "") ==>
              CategoryLine(c) == "- ID " + IntToString(c.id) + ": " + c.name
    ensures CategoryOneLine(c) ==> OneLine(CategoryLine(c))
  {
    var head := "- ID " + IntToString(c.id) + ": " + c.name;
    var desc := if c.description.Some? && c.description.value != "" then " - " + c.description.value else "";
    assert CategoryLine(c) == head + desc;
    assert head <= head + desc;
  }

  /** With no line break inside names and descriptions, the text has
      exactly one line per category, in order. */
  lemma CategoriesTextLines(categories: seq<Category>)
    requires categories != []
    requires forall k :: 0 <= k < |categories| ==> CategoryOneLine(categories[k])
    ensures |Split(CategoriesText(categories), '\n')| == |categories|
    ensures forall k :: 0 <= k < |categories| ==> Split(CategoriesText(categories), '\n')[k] == CategoryLine(categories[k])
  {
    var lines := CategoryLines(categories);
    forall k | 0 <= k < |categories|
      ensures '\n' !in lines[k]
    {
      CategoryLineParts(categories[k]);
    }
    SplitJoin(lines, '\n');
  }

  // ---------------------------------------------------------------------
  // Historical examples

  /** `{cat.id: cat.name for cat in categories}`: a later category with the
      same id replaces an earlier one. */
  function NameById(categories: seq<Category>): map<int, string> {
    if categories == [] then map[]
    else NameById(categories[..|categories| - 1])[categories[|categories| - 1].id := categories[|categories| - 1].name]
  }

  /** The position of the last category with the given id; -1 when no
      category has it. */
  function LastWithId(categories: seq<Category>, id: int): (k: int)
    ensures -1 <= k < |categories|
    ensures k >= 0 ==> categories[k].id == id
    ensures forall j :: k < j < |categories| ==> categories[j].id != id
  {
    if categories == [] then -1
    else if categories[|categories| - 1].id == id then |categories| - 1
    else LastWithId(categories[..|categories| - 1], id)
  }

  /** An id is in the lookup exactly when a category has it, and then it
      names the last category with that id. */
  lemma {:induction false} NameByIdLast(categories: seq<Category>, id: int)
    ensures id in NameById(categories) <==> LastWithId(categories, id) >= 0
    ensures id in NameById(categories) ==> NameById(categories)[id] == categories[LastWithId(categories, id)].name
  {
    if categories != [] {
      var front := categories[..|categories| - 1];
      NameByIdLast(front, id);
      if categories[|categories| - 1].id != id && LastWithId(front, id) >= 0 {
        assert categories[LastWithId(front, id)] == front[LastWithId(front, id)];
      }
    }
  }

  /** `cat_lookup.get(txn.category_id, "Unknown")` */
  function CategoryName(lookup: map<int, string>, categoryId: Option<int>): string {
    if categoryId.Some? && categoryId.value in lookup then lookup[categoryId.value] else "Unknown"
  }

  /** An uncategorized example, or one whose category id no category has,
      is shown under the name "Unknown"; otherwise under the name of the
      last category with its id. */
  lemma CategoryNameOf(categories: seq<Category>, categoryId: Option<int>)
    ensures (categoryId.None? || forall k :: 0 <= k < |categories| ==> categories[k].id != categoryId.value) ==>
      CategoryName(NameById(categories), categoryId) == "Unknown"
    ensures categoryId.Some? && (exists k :: 0 <= k < |categories| && categories[k].id == categoryId.value) ==>
      exists k :: 0 <= k < |categories| && categories[k].id == categoryId.value
                  && CategoryName(NameById(categories), categoryId) == categories[k].name
                  && forall j :: k < j < |categories| ==> categories[j].id != categoryId.value
  {
    if categoryId.Some? {
      NameByIdLast(categories, categoryId.value);
      var k := LastWithId(categories, categoryId.value);
      if k >= 0 {
        assert categories[k].id == categoryId.value;
      }
    }
  }

  /** One example line: description, amount, type, category name and the
      raw category id. */
  function ExampleLine(t: Txn, lookup: map<int, string>, showAmount: real -> string): string {
    "- Description: '" + t.description + "', "
    + "Amount: $" + showAmount(t.amount) + ", "
    + "Type: " + TypeName(t.txnType) + ", "
    + "Category: " + CategoryName(lookup, t.categoryId) + " (ID " + OptionalIntText(t.categoryId) + ")"
  }

  /** How many examples are shown: the first fifty at most. */
  function ShownExamples(transactions: seq<Txn>): (n: nat)
    ensures n <= MaxExamples && n <= |transactions|
    ensures n == MaxExamples || n == |transactions|
  {
    if |transactions| < MaxExamples then |transactions| else MaxExamples
  }

  /** The line of each example, in order. */
  function ExampleLines(examples: seq<Txn>, lookup: map<int, string>, showAmount: real -> string): seq<string> {
    seq(|examples|, i requires 0 <= i < |examples| => ExampleLine(examples[i], lookup, showAmount))
  }

  lemma ExampleLinesStep(examples: seq<Txn>, i: nat, lookup: map<int, string>, showAmount: real -> string)
    requires i < |examples|
    ensures ExampleLines(examples[..i + 1], lookup, showAmount)
            == ExampleLines(examples[..i], lookup, showAmount) + [ExampleLine(examples[i], lookup, showAmount)]
  {
  }

  /** What `_format_historical_transactions` returns. */
  function ExamplesText(transactions: seq<Txn>, categories: seq<Category>, showAmount: real -> string): string {
    if transactions == [] then NoExamples
    else Join("\n", ExampleLines(transactions[..ShownExamples(transactions)], NameById(categories), showAmount))
  }

  /** `_format_historical_transactions`: one line for each of the first
      fifty transactions, joined by line breaks; the fixed sentence when
      there is none. */
  method FormatHistoricalTransactions(transactions: seq<Txn>, categories: seq<Category>, showAmount: real -> string)
    returns (text: string)
    ensures text == ExamplesText(transactions, categories, showAmount)
  {
    if |transactions| == 0 {
      return NoExamples;
    }
    var catLookup := NameById(categories);
    var shown := transactions[..ShownExamples(transactions)];
    var lines: seq<string> := [];
    for i := 0 to |shown|
      invariant lines == ExampleLines(shown[..i], catLookup, showAmount)
    {
      ExampleLinesStep(shown, i, catLookup, showAmount);
      lines := lines + [ExampleLine(shown[i], catLookup, showAmount)];
    }
    assert shown[..|shown|] == shown;
    text := Join("\n", lines);
  }

  /** A transaction whose id and description have no line break and whose
      amount is shown on one line. */
  predicate TxnOneLine(t: Txn, showAmount: real -> string) {
    OneLine(t.id) && OneLine(t.description) && OneLine(showAmount(t.amount))
  }

  /** With no line break inside the shown fields, the examples text has one
      line for each of the first fifty transactions, in order, and never
      more than fifty lines. */
  lemma ExamplesTextLines(transactions: seq<Txn>, categories: seq<Category>, showAmount: real -> string)
    requires transactions != []
    requires forall k :: 0 <= k < |transactions| ==> TxnOneLine(transactions[k], showAmount)
    requires forall k :: 0 <= k < |categories| ==> CategoryOneLine(categories[k])
    ensures |Split(ExamplesText(transactions, categories, showAmount), '\n')| == ShownExamples(transactions)
    ensures |Split(ExamplesText(transactions, categories, showAmount), '\n')| <= MaxExamples
    ensures forall k :: 0 <= k < ShownExamples(transactions) ==>
      Split(ExamplesText(transactions, categories, showAmount), '\n')[k]
        == ExampleLine(transactions[k], NameById(categories), showAmount)
  {
    var shown := transactions[..ShownExamples(transactions)];
    ExampleLinesOneLine(shown, categories, showAmount);
    SplitJoin(ExampleLines(shown, NameById(categories), showAmount), '\n');
  }

  lemma ExampleLinesOneLine(shown: seq<Txn>, categories: seq<Category>, showAmount: real -> string)
    requires forall k :: 0 <= k < |shown| ==> TxnOneLine(shown[k], showAmount)
    requires forall k :: 0 <= k < |categories| ==> CategoryOneLine(categories[k])
    ensures forall k :: 0 <= k < |shown| ==> '\n' !in ExampleLines(shown, NameById(categories), showAmount)[k]
  {
    var lookup := NameById(categories);
    forall k | 0 <= k < |shown|
      ensures '\n' !in ExampleLines(shown, lookup, showAmount)[k]
    {
      LookupOneLine(categories, shown[k].categoryId);
      ExampleLineOneLine(shown[k], lookup, showAmount);
    }
  }

  /** The pieces of a line are joined without adding a line break. */
  lemma OneLineAppend(a: string, b: string)
    requires OneLine(a) && OneLine(b)
    ensures OneLine(a + b)
  {
  }

  /** Helper for `ExampleLineOneLine`: three one-line pieces joined are
      one line. */
  lemma OneLineAppend3(a: string, b: string, c: string)
    requires OneLine(a) && OneLine(b) && OneLine(c)
    ensures OneLine(a + b + c)
  {
    OneLineAppend(a, b);
    OneLineAppend(a + b, c);
  }

  /** A type name is one line. */
  lemma TypeNameOneLine(k: TxnType)
    ensures OneLine(TypeName(k))
  {
  }

  lemma ExampleLineOneLine(t: Txn, lookup: map<int, string>, showAmount: real -> string)
    requires TxnOneLine(t, showAmount) && OneLine(CategoryName(lookup, t.categoryId))
    ensures OneLine(ExampleLine(t, lookup, showAmount))
  {
    TypeNameOneLine(t.txnType);
    var a := "- Description: '" + t.description + "', ";
    OneLineAppend3("- Description: '", t.description, "', ");
    var b := "Amount: $" + showAmount(t.amount) + ", ";
    OneLineAppend3("Amount: $", showAmount(t.amount), ", ");
    var c := "Type: " + TypeName(t.txnType) + ", ";
    OneLineAppend3("Type: ", TypeName(t.txnType), ", ");
    var name := CategoryName(lookup, t.categoryId);
    var idText := OptionalIntText(t.categoryId);
    var d := "Category: " + name + " (ID " + idText + ")";
    OneLineAppend3("Category: ", name, " (ID ");
    OneLineAppend3("Category: " + name + " (ID ", idText, ")");
    OneLineAppend(a, b);
    OneLineAppend(a + b, c);
    OneLineAppend(a + b + c, d);
  }

  /** A category name shown in an example has no line break when no
      category name has one. */
  lemma LookupOneLine(categories: seq<Category>, categoryId: Option<int>)
    requires forall k :: 0 <= k < |categories| ==> CategoryOneLine(categories[k])
    ensures OneLine(CategoryName(NameById(categories), categoryId))
  {
    CategoryNameOf(categories, categoryId);
  }

  // ---------------------------------------------------------------------
  // Transactions to categorize

  /** One line per transaction to categorize: id, description, amount and
      type. */
  function TxnLine(t: Txn, showAmount: real -> string): string {
    "- ID: " + t.id + ", "
    + "Description: '" + t.description + "', "
    + "Amount: $" + showAmount(t.amount) + ", "
    + "Type: " + TypeName(t.txnType)
  }

  /** What `_format_transactions` returns: the lines joined by line breaks,
      the empty text for no transaction. */
  function TransactionsText(transactions: seq<Txn>, showAmount: real -> string): string {
    Join("\n", TxnLines(transactions, showAmount))
  }

  /** The line of each transaction, in order. */
  function TxnLines(transactions: seq<Txn>, showAmount: real -> string): seq<string> {
    seq(|transactions|, i requires 0 <= i < |transactions| => TxnLine(transactions[i], showAmount))
  }

  /** `_format_transactions` */
  method FormatTransactions(transactions: seq<Txn>, showAmount: real -> string) returns (text: string)
    ensures text == TransactionsText(transactions, showAmount)
  {
    var lines: seq<string> := [];
    for i := 0 to |transactions|
      invariant |lines| == i
      invariant forall k :: 0 <= k < i ==> lines[k] == TxnLine(transactions[k], showAmount)
    {
      lines := lines + [TxnLine(transactions[i], showAmount)];
    }
    assert lines == TxnLines(transactions, showAmount);
    text := Join("\n", lines);
  }

  lemma TxnLineOneLine(t: Txn, showAmount: real -> string)
    requires TxnOneLine(t, showAmount)
    ensures OneLine(TxnLine(t, showAmount))
  {
    TypeNameOneLine(t.txnType);
    var a := "- ID: " + t.id + ", ";
    var b := "Description: '" + t.description + "', ";
    var c := "Amount: $" + showAmount(t.amount) + ", ";
    OneLineAppend(a + b + c, "Type: " + TypeName(t.txnType));
  }

  /** With no line break inside the shown fields, the text has exactly one
      line per transaction, in order; with no transaction it is empty. */
  lemma TransactionsTextLines(transactions: seq<Txn>, showAmount: real -> string)
    requires forall k :: 0 <= k < |transactions| ==> TxnOneLine(transactions[k], showAmount)
    ensures transactions == [] ==> TransactionsText(transactions, showAmount) == ""
    ensures transactions != [] ==> |Split(TransactionsText(transactions, showAmount), '\n')| == |transactions|
    ensures transactions != [] ==> forall k :: 0 <= k < |transactions| ==>
      Split(TransactionsText(transactions, showAmount), '\n')[k] == TxnLine(transactions[k], showAmount)
  {
    if transactions != [] {
      var lines := TxnLines(transactions, showAmount);
      forall k | 0 <= k < |transactions|
        ensures '\n' !in lines[k]
      {
        TxnLineOneLine(transactions[k], showAmount);
      }
      SplitJoin(lines, '\n');
    }
  }

  // ---------------------------------------------------------------------
  // Suggestions

  /** One suggestion per returned categorization, in order, copying the
      transaction id, category id and reasoning; the model gives no
      confidence. A null parsed response gives no suggestion. */
  function Suggestions(response: Option<seq<Categorization>>): (r: seq<CategorySuggestion>)
    ensures response.None? ==> r == []
    ensures response.Some? ==> |r| == |response.value|
    ensures response.Some? ==> forall k :: 0 <= k < |r| ==>
      && r[k].transactionId == response.value[k].transactionId
      && r[k].categoryId == response.value[k].categoryId
      && r[k].reasoning == response.value[k].reasoning
      && r[k].confidence == None
  {
    match response
    case None => []
    case Some(cs) =>
      seq(|cs|, i requires 0 <= i < |cs| => CategorySuggestion(cs[i].transactionId, cs[i].categoryId, None, cs[i].reasoning))
  }

  /** The prompt values for a request. */
  function PromptFor(transactions: seq<Txn>, categories: seq<Category>, historical: seq<Txn>,
                     showAmount: real -> string): Prompt
  {
    Prompt(CategoriesText(categories), ExamplesText(historical, categories, showAmount),
           TransactionsText(transactions, showAmount))
  }

  /** `categorize_transactions`: nothing to categorize returns no
      suggestion without a request; otherwise the three sections are
      formatted, sent through `complete`, and each returned categorization
      becomes a suggestion. */
  method CategorizeTransactions(transactions: seq<Txn>, categories: seq<Category>, historical: seq<Txn>,
                                showAmount: real -> string, complete: Prompt -> Option<seq<Categorization>>)
    returns (suggestions: seq<CategorySuggestion>)
    ensures transactions == [] ==> suggestions == []
    ensures transactions != [] ==>
      suggestions == Suggestions(complete(PromptFor(transactions, categories, historical, showAmount)))
  {
    if |transactions| == 0 {
      return [];
    }
    var categoriesText := FormatCategories(categories);
    var examplesText := FormatHistoricalTransactions(historical, categories, showAmount);
    var transactionsText := FormatTransactions(transactions, showAmount);
    var result := complete(Prompt(categoriesText, examplesText, transactionsText));
    if result.None? {
      return [];
    }
    var categorizations := result.value;
    suggestions := [];
    for i := 0 to |categorizations|
      invariant |suggestions| == i
      invariant forall k :: 0 <= k < i ==>
        suggestions[k] == CategorySuggestion(categorizations[k].transactionId, categorizations[k].categoryId,
                                             None, categorizations[k].reasoning)
    {
      var cat := categorizations[i];
      suggestions := suggestions + [CategorySuggestion(cat.transactionId, cat.categoryId, None, cat.reasoning)];
    }
  }
}
