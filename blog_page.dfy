/** The blog page: the featured article and the category-filtered grid that
    leaves it out. */
module BlogPage {
  import opened Seqs

  /** An article of the blog list. */
  datatype Article = Article(Id: int, title: string, excerpt: string, category: string, author: string)

  const All := "all"

  /** `featuredArticle`: the first loaded article; `None` (null) while there is none. */
  function FeaturedArticle(articles: seq<Article>): (r: Option<Article>)
    ensures articles != [] ==> r == Some(articles[0])
    ensures articles == [] ==> r == None
  {
    if articles == [] then None else Some(articles[0])
  }

  function InCategory(selectedCategory: string): Article -> bool
  {
    (article: Article) => selectedCategory == All || article.category == selectedCategory
  }

  /** `article.Id !== featuredArticle?.Id`; with no featured article the right side is
      `undefined`, which no numeric Id equals. */
  function NotFeatured(featured: Option<Article>): Article -> bool
  {
    (article: Article) => featured.None? || article.Id != featured.value.Id
  }

  /** The article passes both filters of the grid. */
  predicate Listed(selectedCategory: string, featured: Option<Article>, article: Article)
  {
    InCategory(selectedCategory)(article) && NotFeatured(featured)(article)
  }

  /** `filteredArticles`: the category filter, then the featured article taken out. */
  function FilteredArticles(articles: seq<Article>, featured: Option<Article>, selectedCategory: string): seq<Article>
  {
    Filter(Filter(articles, InCategory(selectedCategory)), NotFeatured(featured))
  }

  /** The grid keeps exactly the articles of the selected category (any, for "all")
      whose Id is not the featured one, in their loaded order. */
  lemma GridContents(articles: seq<Article>, featured: Option<Article>, selectedCategory: string)
    ensures var grid := FilteredArticles(articles, featured, selectedCategory);
            (forall i :: 0 <= i < |grid| ==>
               grid[i] in articles &&
               (selectedCategory == All || grid[i].category == selectedCategory) &&
               (featured.None? || grid[i].Id != featured.value.Id)) &&
            (forall i :: 0 <= i < |articles| && Listed(selectedCategory, featured, articles[i]) ==>
                          articles[i] in grid) &&
            IsSubsequence(grid, articles)
  {
    var inCategory := Filter(articles, InCategory(selectedCategory));
    var grid := Filter(inCategory, NotFeatured(featured));
    FilterMembers(articles, InCategory(selectedCategory));
    FilterMembers(inCategory, NotFeatured(featured));
    FilterSubsequence(articles, InCategory(selectedCategory));
    FilterSubsequence(inCategory, NotFeatured(featured));
    assert forall i :: 0 <= i < |grid| ==> grid[i] in inCategory && InCategory(selectedCategory)(grid[i]);
    assert forall i :: 0 <= i < |articles| && InCategory(selectedCategory)(articles[i]) ==> articles[i] in inCategory;
    forall i | 0 <= i < |articles| && InCategory(selectedCategory)(articles[i]) && NotFeatured(featured)(articles[i])
      ensures articles[i] in grid
    {
      var k :| 0 <= k < |inCategory| && inCategory[k] == articles[i];
    }
    SubsequenceTransitive(grid, inCategory, articles);
  }

  /** The featured article never appears in the grid, whatever the category. */
  lemma FeaturedNotInGrid(articles: seq<Article>, selectedCategory: string)
    requires articles != []
    ensures articles[0] !in FilteredArticles(articles, FeaturedArticle(articles), selectedCategory)
  {
  }

  /** The empty grid's "View All Articles" action resets the category to "all",
      after which the grid is every article except those sharing the featured Id. */
  function EmptyViewAction(selectedCategory: string): (category: string)
    ensures category == All
  {
    All
  }

  lemma ResetShowsAllButFeatured(articles: seq<Article>, featured: Option<Article>, selectedCategory: string)
    ensures FilteredArticles(articles, featured, EmptyViewAction(selectedCategory)) == Filter(articles, NotFeatured(featured))
  {
    FilterKeepsAll(articles, InCategory(All));
  }
}
