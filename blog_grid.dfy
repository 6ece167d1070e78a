/** The blog index's category filter (components/blog/blog-grid.tsx). The
    post list and the category list come from lib/blog-data, which is not
    part of this model; they are the grid's constructor arguments. */
module BlogGrid {

  datatype BlogPost = BlogPost(slug: string, category: string)

  /** The selection that shows every post. */
  const All: string := "all"

  /** `blogPosts.filter(post => post.category === category)`. */
  function InCategory(posts: seq<BlogPost>, category: string): (r: seq<BlogPost>)
    ensures |r| <= |posts|
    ensures forall p :: p in r <==> p in posts && p.category == category
  {
    if posts == [] then []
    else if posts[0].category == category then [posts[0]] + InCategory(posts[1..], category)
    else InCategory(posts[1..], category)
  }

  /** Filtering keeps the order: the posts of `a` that match come before
      those of `b`. */
  lemma {:induction false} InCategoryAppend(a: seq<BlogPost>, b: seq<BlogPost>, category: string)
    ensures InCategory(a + b, category) == InCategory(a, category) + InCategory(b, category)
    decreases |a|
  {
    if a == [] {
      assert a + b == b;
    } else {
      assert (a + b)[0] == a[0];
      assert (a + b)[1..] == a[1..] + b;
      InCategoryAppend(a[1..], b, category);
    }
  }

  /** `filteredPosts`. */
  function Filtered(posts: seq<BlogPost>, selected: string): (r: seq<BlogPost>)
    ensures selected == All ==> r == posts
    ensures selected != All ==> forall p :: p in r <==> p in posts && p.category == selected
  {
    if selected == All then posts else InCategory(posts, selected)
  }

  /** The no-results message shows exactly when no post has the selected
      category (or, with everything selected, when there are no posts). */
  lemma {:induction false} NoResultsWhen(posts: seq<BlogPost>, selected: string)
    ensures |Filtered(posts, selected)| == 0 <==>
            (if selected == All then posts == [] else forall p :: p in posts ==> p.category != selected)
  {
    var r := Filtered(posts, selected);
    if selected != All && r != [] {
      assert r[0] in r;
    }
  }

  class Grid {
    const posts: seq<BlogPost>
    /** `getAllCategories()`: one button per entry. */
    const categories: seq<string>
    var selectedCategory: string

    constructor (posts: seq<BlogPost>, categories: seq<string>)
      ensures this.posts == posts && this.categories == categories
      ensures selectedCategory == All
    {
      this.posts := posts;
      this.categories := categories;
      selectedCategory := All;
    }

    /** The posts on screen. */
    function Shown(): seq<BlogPost>
      reads this
    {
      Filtered(posts, selectedCategory)
    }

    /** A button is highlighted when its value is the selection. */
    predicate Highlighted(value: string)
      reads this
    {
      selectedCategory == value
    }

    /** The `all` button. */
    method SelectAll()
      modifies this
      ensures selectedCategory == All
      ensures Shown() == posts
    {
      selectedCategory := All;
    }

    /** The button of the `k`-th category. */
    method Select(k: nat)
      requires k < |categories|
      modifies this
      ensures selectedCategory == categories[k]
      ensures Highlighted(categories[k])
      ensures categories[k] != All ==> forall p :: p in Shown() <==> p in posts && p.category == categories[k]
    {
      selectedCategory := categories[k];
    }
  }
}
