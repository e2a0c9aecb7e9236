/**
 * The admin product editor (ProductForm.tsx): a form holding either a new
 * product's fields or a whole existing product, text-field edits, and the
 * submit rule that invents a placeholder image URL from the name.
 */
module ProductForm {
  import opened Wrappers
  import opened Types
  import opened Text

  /** The fields of a product that does not exist yet: no id, rating or reviews. */
  datatype Draft = Draft(
    name: string,
    category: string,
    priceCents: int,
    imageUrl: string,
    description: string,
    stock: int,
    manufacturingDate: string)

  /** What the form holds and submits: a new product's fields, or an existing product (which carries its id). */
  datatype FormData = NewProduct(draft: Draft) | ExistingProduct(product: Product)

  /** The blank form: empty strings, zero price and stock. */
  const InitialForm: FormData := NewProduct(Draft("", "", 0, "", "", 0, ""))

  /** Opening the form: an existing product is loaded whole, otherwise the blank form. */
  function Load(product: Option<Product>): (f: FormData)
    ensures product.Some? ==> f == ExistingProduct(product.value)
    ensures product.None? ==> (f.NewProduct? && f.draft.name == "" && f.draft.category == ""
      && f.draft.imageUrl == "" && f.draft.description == "" && f.draft.manufacturingDate == ""
      && f.draft.priceCents == 0 && f.draft.stock == 0)
  {
    if product.Some? then ExistingProduct(product.value) else InitialForm
  }

  /** The text inputs the form renders; the numeric inputs go through number parsing. */
  datatype TextField = NameField | DescriptionField | CategoryField

  function Name(f: FormData): string
  {
    if f.NewProduct? then f.draft.name else f.product.name
  }

  function ImageUrl(f: FormData): string
  {
    if f.NewProduct? then f.draft.imageUrl else f.product.imageUrl
  }

  /** The value of a text field. */
  function Get(f: FormData, field: TextField): string
  {
    match field
    case NameField => Name(f)
    case DescriptionField => if f.NewProduct? then f.draft.description else f.product.description
    case CategoryField => if f.NewProduct? then f.draft.category else f.product.category
  }

  /** `handleChange` for a text input: set the named field to the typed value. */
  function Change(f: FormData, field: TextField, value: string): (g: FormData)
    ensures Get(g, field) == value
    ensures forall other :: other != field ==> Get(g, other) == Get(f, other)
    ensures g.NewProduct? <==> f.NewProduct?
    ensures ImageUrl(g) == ImageUrl(f)
    ensures g.ExistingProduct? ==> (g.product.id == f.product.id && g.product.reviews == f.product.reviews
      && g.product.priceCents == f.product.priceCents && g.product.stock == f.product.stock
      && g.product.manufacturingDate == f.product.manufacturingDate && g.product.ratingTenths == f.product.ratingTenths)
    ensures g.NewProduct? ==> (g.draft.priceCents == f.draft.priceCents && g.draft.stock == f.draft.stock
      && g.draft.manufacturingDate == f.draft.manufacturingDate)
  {
    match f
    case NewProduct(d) =>
      NewProduct(match field
        case NameField => d.(name := value)
        case DescriptionField => d.(description := value)
        case CategoryField => d.(category := value))
    case ExistingProduct(p) =>
      ExistingProduct(match field
        case NameField => p.(name := value)
        case DescriptionField => p.(description := value)
        case CategoryField => p.(category := value))
  }

  /** A string with no white space in it. */
  predicate NoWhitespace(s: string)
  {
    forall i :: 0 <= i < |s| ==> !IsJsWhitespace(s[i])
  }

  /** `name.replace(/\s+/g, '-')`: every maximal run of white space becomes one hyphen. */
  function Slug(s: string): (r: string)
    ensures NoWhitespace(r)
    ensures |r| <= |s|
    ensures |r| == 0 <==> |s| == 0
    decreases |s|
  {
    if |s| == 0 then ""
    else if IsJsWhitespace(s[0]) then
      var rest := TrimStart(s);
      "-" + Slug(rest)
    else [s[0]] + Slug(s[1..])
  }

  /** A name without white space is its own slug. */
  lemma {:induction false} SlugOfPlainName(s: string)
    requires NoWhitespace(s)
    ensures Slug(s) == s
    decreases |s|
  {
    if |s| > 0 {
      assert NoWhitespace(s[1..]) by {
        forall i | 0 <= i < |s[1..]| ensures !IsJsWhitespace(s[1..][i]) {
          assert s[1..][i] == s[i + 1];
        }
      }
      SlugOfPlainName(s[1..]);
      assert s == [s[0]] + s[1..];
    }
  }

  /** Slugging twice changes nothing. */
  lemma SlugIdempotent(s: string)
    ensures Slug(Slug(s)) == Slug(s)
  {
    SlugOfPlainName(Slug(s));
  }

  /**
   * Words separated by one run of white space: the run becomes a single
   * hyphen, the words are kept as they are.
   */
  lemma {:induction false} SlugJoin(word: string, gap: string, rest: string)
    requires NoWhitespace(word)
    requires |gap| > 0 && IsBlank(gap)
    requires |rest| == 0 || !IsJsWhitespace(rest[0])
    ensures Slug(word + gap + rest) == word + "-" + Slug(rest)
    decreases |word|
  {
    var s := word + gap + rest;
    if |word| == 0 {
      assert s == gap + rest;
      assert IsJsWhitespace(s[0]);
      GapTrimmed(gap, rest);
      assert Slug(s) == "-" + Slug(rest);
      assert word + "-" + Slug(rest) == "-" + Slug(rest);
    } else {
      assert s[0] == word[0];
      assert s[1..] == word[1..] + gap + rest;
      assert NoWhitespace(word[1..]) by {
        forall i | 0 <= i < |word[1..]| ensures !IsJsWhitespace(word[1..][i]) {
          assert word[1..][i] == word[i + 1];
        }
      }
      assert Slug(s) == [word[0]] + Slug(word[1..] + gap + rest);
      SlugJoin(word[1..], gap, rest);
      assert word + "-" + Slug(rest) == [word[0]] + (word[1..] + "-" + Slug(rest));
    }
  }

  /** Trimming a blank gap off the front of a word-initial string leaves the word. */
  lemma {:induction false} GapTrimmed(gap: string, rest: string)
    requires IsBlank(gap)
    requires |rest| == 0 || !IsJsWhitespace(rest[0])
    ensures TrimStart(gap + rest) == rest
    decreases |gap|
  {
    if |gap| > 0 {
      assert (gap + rest)[1..] == gap[1..] + rest;
      assert IsBlank(gap[1..]) by {
        forall i | 0 <= i < |gap[1..]| ensures IsJsWhitespace(gap[1..][i]) {
          assert gap[1..][i] == gap[i + 1];
        }
      }
      GapTrimmed(gap[1..], rest);
    } else {
      assert gap + rest == rest;
    }
  }

  const PlaceholderPrefix: string := "https://picsum.photos/seed/"
  const PlaceholderSuffix: string := "/400/400"

  /** Typing a field's old value back undoes an edit: an edit touches nothing but its own field. */
  lemma ChangeRestores(f: FormData, field: TextField, value: string)
    ensures Change(Change(f, field, value), field, Get(f, field)) == f
  {
  }

  /** The placeholder image address for a product name. */
  function PlaceholderUrl(name: string): (url: string)
    ensures |url| == |PlaceholderPrefix| + |Slug(name)| + |PlaceholderSuffix|
    ensures |url| > |PlaceholderPrefix| + |PlaceholderSuffix| <==> |name| > 0
    ensures url[..|PlaceholderPrefix|] == PlaceholderPrefix
    ensures url[|url| - |PlaceholderSuffix|..] == PlaceholderSuffix
    ensures url[|PlaceholderPrefix|..|url| - |PlaceholderSuffix|] == Slug(name)
  {
    var url := PlaceholderPrefix + Slug(name) + PlaceholderSuffix;
    assert url[|PlaceholderPrefix|..|url| - |PlaceholderSuffix|] == Slug(name);
    url
  }

  function WithImageUrl(f: FormData, url: string): FormData
  {
    match f
    case NewProduct(d) => NewProduct(d.(imageUrl := url))
    case ExistingProduct(p) => ExistingProduct(p.(imageUrl := url))
  }

  /**
   * `handleSubmit`: with no image the data goes out with the placeholder
   * address for its name, otherwise exactly as held.
   */
  function Submit(f: FormData): (out: FormData)
    ensures ImageUrl(f) != "" ==> out == f
    ensures ImageUrl(f) == "" ==> ImageUrl(out) == PlaceholderUrl(Name(f))
    ensures WithImageUrl(out, ImageUrl(f)) == f
    ensures forall field :: Get(out, field) == Get(f, field)
    ensures out.NewProduct? <==> f.NewProduct?
    ensures out.ExistingProduct? ==> out.product.id == f.product.id
    ensures ImageUrl(out) != ""
  {
    if ImageUrl(f) == "" then WithImageUrl(f, PlaceholderUrl(Name(f))) else f
  }

  /** Opening an existing product that has an image and saving at once submits that very product. */
  lemma LoadThenSubmitIsIdentity(p: Product)
    requires p.imageUrl != ""
    ensures Submit(Load(Some(p))) == ExistingProduct(p)
  {
  }

  /** Submitting an already submitted form sends the same data again. */
  lemma SubmitIdempotent(f: FormData)
    ensures Submit(Submit(f)) == Submit(f)
  {
  }
}
