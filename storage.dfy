/** The storage layer's error enum and the category codec of the SQLite store
    (`category_to_string` / `string_to_category`): how a category is written to
    its text column and read back. */
module Storage {
  import opened Wrappers
  import opened Types
  import opened Text

  /** `StorageError`. A database error (`rusqlite::Error`) is kept as its
      message. */
  datatype StorageError =
    | Connection(message: string)
    | Query(message: string)
    | Serialization(message: string)
    | HabitNotFound(habitId: string)
    | EntryNotFound(entryId: string)
    | DuplicateEntry(habitId: string, date: string)
    | Migration(message: string)

  /** The text column value of a category: a fixed lower-case word, or
      `custom:` followed by the custom name. */
  function CategoryToString(c: Category): (s: string)
    ensures c.Custom? ==> StartsWith(s, "custom:")
  {
    match c
    case Health => "health"
    case Productivity => "productivity"
    case Social => "social"
    case Creative => "creative"
    case Mindfulness => "mindfulness"
    case Financial => "financial"
    case Household => "household"
    case Personal => "personal"
    case Custom(name) => "custom:" + name
  }

  /** Reading a category column back; anything but the exact eight words and the
      `custom:` prefix is an error. None of the eight words starts with
      `custom:`, so the prefix is tested first here without changing the
      result. */
  function StringToCategory(s: string): (r: Result<Category, StorageError>)
    ensures r.Failure? ==> r.error == Query("Invalid category")
  {
    if StartsWith(s, "custom:") then Success(Category.Custom(StripPrefix(s, "custom:")))
    else if s == "health" then Success(Health)
    else if s == "productivity" then Success(Productivity)
    else if s == "social" then Success(Social)
    else if s == "creative" then Success(Creative)
    else if s == "mindfulness" then Success(Mindfulness)
    else if s == "financial" then Success(Financial)
    else if s == "household" then Success(Household)
    else if s == "personal" then Success(Personal)
    else Failure(Query("Invalid category"))
  }

  /** Every category reads back as itself. */
  lemma CategoryRoundTrip(c: Category)
    ensures StringToCategory(CategoryToString(c)) == Success(c)
  {
    var s := CategoryToString(c);
    if c.Custom? {
      assert s[..7] == "custom:";
    } else if |s| >= 7 {
      var p := "custom:";
      assert s[0] != p[0] || s[1] != p[1];
      assert s[..7][0] == s[0] && s[..7][1] == s[1];
    }
  }

  /** Different categories are written differently. */
  lemma CategoryToStringInjective(a: Category, b: Category)
    requires CategoryToString(a) == CategoryToString(b)
    ensures a == b
  {
    CategoryRoundTrip(a);
    CategoryRoundTrip(b);
  }

  /** A string decodes exactly when it is the encoding of some category, and then
      it decodes to that category. */
  lemma StringToCategoryExact(s: string)
    ensures StringToCategory(s).Success? ==> CategoryToString(StringToCategory(s).value) == s
  {
    if StartsWith(s, "custom:") {
      assert "custom:" + s[7..] == s;
    }
  }

  /** Any text after the `custom:` prefix is a custom name. */
  lemma StringToCategoryCustom(s: string)
    requires StartsWith(s, "custom:")
    ensures StringToCategory(s) == Success(Category.Custom(StripPrefix(s, "custom:")))
  {
    CategoryRoundTrip(Category.Custom(StripPrefix(s, "custom:")));
  }

  /** The decoder is case-sensitive: the display name "Health" is not a stored
      category, and neither is the bare word "custom". */
  lemma StringToCategoryRejects()
    ensures StringToCategory("Health").Failure?
    ensures StringToCategory("custom").Failure?
  {
  }

  /** The `custom:` prefix is removed once: a custom name that itself starts with
      `custom:` survives. */
  lemma CustomPrefixOnce(name: string)
    ensures StringToCategory("custom:" + name) == Success(Category.Custom(name))
    ensures StringToCategory("custom:custom:" + name) == Success(Category.Custom("custom:" + name))
  {
    CategoryRoundTrip(Category.Custom(name));
    CategoryRoundTrip(Category.Custom("custom:" + name));
    assert "custom:custom:" + name == "custom:" + ("custom:" + name);
  }
}
