/** The BlogPost entity (Models/BlogPost.cs): a mutable record with field
    defaults and one method, GenerateCombinedText, that derives the text
    meant for embedding from the title, the content and the categories. */
module Models {

  /** An embedding; the model treats the floats as opaque values. */
  type Vector = seq<real>

  /** A snapshot of every field of a BlogPost. */
  datatype PostValue = PostValue(
    id: string,
    title: string,
    content: string,
    url: string,
    categories: seq<string>,
    vector: Vector,
    combinedText: string,
    createdAt: int)

  /** string.Join: the elements in order, with sep between neighbours. */
  function Join(sep: string, xs: seq<string>): string
  {
    if |xs| == 0 then ""
    else if |xs| == 1 then xs[0]
    else Join(sep, xs[..|xs| - 1]) + sep + xs[|xs| - 1]
  }

  function TotalLength(xs: seq<string>): nat
  {
    if xs == [] then 0 else TotalLength(xs[..|xs| - 1]) + |xs[|xs| - 1]|
  }

  /** Joining adds exactly one separator between each pair of neighbours. */
  lemma {:induction false} JoinLength(sep: string, xs: seq<string>)
    requires xs != []
    ensures |Join(sep, xs)| == TotalLength(xs) + |sep| * (|xs| - 1)
  {
    if |xs| > 1 {
      JoinLength(sep, xs[..|xs| - 1]);
      assert TotalLength(xs[..|xs| - 1]) == TotalLength(xs[..|xs| - 1][..|xs| - 2]) + |xs[|xs| - 2]|;
    } else {
      assert xs[..0] == [];
    }
  }

  /** Joining keeps the order: the join of a non-empty prefix of the list is a
      prefix of the join of the list. */
  lemma {:induction false} JoinPrefix(sep: string, xs: seq<string>, k: nat)
    requires 1 <= k <= |xs|
    ensures Join(sep, xs[..k]) <= Join(sep, xs)
  {
    if k < |xs| {
      var init := xs[..|xs| - 1];
      assert init[..k] == xs[..k];
      JoinPrefix(sep, init, k);
      if |xs| == 1 {
      } else {
        assert Join(sep, init) <= Join(sep, xs);
      }
    } else {
      assert xs[..k] == xs;
    }
  }

  const CategoriesLabel: string := " Categories: "
  const CategorySeparator: string := ", "

  /** The text GenerateCombinedText assigns: "{title}. {content}", followed by
      " Categories: " and the comma-separated categories when there are any. */
  function CombinedTextOf(title: string, content: string, categories: seq<string>): string
  {
    var categoriesText := if |categories| > 0 then CategoriesLabel + Join(CategorySeparator, categories) else "";
    title + ". " + content + categoriesText
  }

  /** The combined text starts with "{title}. {content}"; it is exactly that
      when there are no categories, and otherwise continues with " Categories: "
      and the categories joined by ", ". */
  lemma CombinedTextShape(title: string, content: string, categories: seq<string>)
    ensures var r := CombinedTextOf(title, content, categories);
      && title + ". " + content <= r
      && (categories == [] <==> r == title + ". " + content)
      && (categories != [] ==> r[|title| + 2 + |content|..] == CategoriesLabel + Join(CategorySeparator, categories))
  {
  }

  /** The combined text never comes back empty, unlike the field's default. */
  lemma CombinedTextNotDefault(title: string, content: string, categories: seq<string>)
    ensures CombinedTextOf(title, content, categories) != ""
  {
    assert |CombinedTextOf(title, content, categories)| >= |title + ". "|;
  }

  /** The combined text carries each category, in order: taking the first k
      categories gives a prefix of the text taken with all of them. */
  lemma {:induction false} CombinedTextCategoryOrder(title: string, content: string, categories: seq<string>, k: nat)
    requires 1 <= k <= |categories|
    ensures CombinedTextOf(title, content, categories[..k]) <= CombinedTextOf(title, content, categories)
  {
    var short, long := Join(CategorySeparator, categories[..k]), Join(CategorySeparator, categories);
    JoinPrefix(CategorySeparator, categories, k);
    PrefixAfter(title + ". " + content + CategoriesLabel, short, long);
  }

  lemma PrefixAfter(head: string, a: string, b: string)
    requires a <= b
    ensures head + a <= head + b
  {
    assert head + b == (head + a) + b[|a|..];
  }

  /** The text that feeds the embedding is current for these field values. */
  predicate TextCurrent(p: PostValue) {
    p.combinedText == CombinedTextOf(p.title, p.content, p.categories)
  }

  class BlogPost {
    var id: string
    var title: string
    var content: string
    var url: string
    var categories: seq<string>
    var vector: Vector
    var combinedText: string
    var createdAt: int

    /** A new BlogPost. The source draws the id from Guid.NewGuid() and the
        timestamp from DateTime.UtcNow; here both are given. */
    constructor (id: string, createdAt: int)
      ensures Snapshot() == PostValue(id, "", "", "", [], [], "", createdAt)
    {
      this.id := id;
      this.title := "";
      this.content := "";
      this.url := "";
      this.categories := [];
      this.vector := [];
      this.combinedText := "";
      this.createdAt := createdAt;
    }

    function Snapshot(): PostValue
      reads this
    {
      PostValue(id, title, content, url, categories, vector, combinedText, createdAt)
    }

    /** Sets CombinedText from the current title, content and categories and
        changes no other field; once the text is current, a further call
        changes nothing. */
    method GenerateCombinedText()
      modifies this`combinedText
      ensures TextCurrent(Snapshot())
      ensures Snapshot() == old(Snapshot()).(combinedText := combinedText)
      ensures old(TextCurrent(Snapshot())) ==> Snapshot() == old(Snapshot())
    {
      var categoriesText := if |categories| > 0 then CategoriesLabel + Join(CategorySeparator, categories) else "";
      combinedText := title + ". " + content + categoriesText;
    }
  }
}
