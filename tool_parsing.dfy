/** How the tools read the category and frequency words a client sends: trimmed,
    lower-cased, then matched against a fixed table. */
module ToolParsing {
  import opened Wrappers
  import opened Calendar
  import opened Types
  import opened Text
  import opened Storage

  /** `s.trim().to_lowercase()`. */
  function Normalize(s: string): string {
    ToLower(Trim(s))
  }

  /** A string that trimming leaves alone. */
  lemma TrimOfTrimmed(s: string)
    requires s != [] ==> !IsWhitespace(s[0]) && !IsWhitespace(s[|s| - 1])
    ensures Trim(s) == s
  {
  }

  lemma LowerCharKeepsWhitespace(c: char)
    ensures IsWhitespace(LowerChar(c)) == IsWhitespace(c)
    ensures LowerChar(LowerChar(c)) == LowerChar(c)
  {
  }

  /** Lower-casing twice is lower-casing once. */
  lemma ToLowerIdempotent(t: string)
    ensures ToLower(ToLower(t)) == ToLower(t)
  {
    var n := ToLower(t);
    ToLowerAt(t);
    ToLowerAt(n);
    forall i | 0 <= i < |n|
      ensures ToLower(n)[i] == n[i]
    {
      LowerCharKeepsWhitespace(t[i]);
    }
  }

  /** Lower-casing a trimmed string leaves it trimmed. */
  lemma ToLowerKeepsTrimmed(t: string)
    requires t != [] ==> !IsWhitespace(t[0]) && !IsWhitespace(t[|t| - 1])
    ensures Trim(ToLower(t)) == ToLower(t)
  {
    var n := ToLower(t);
    if n != [] {
      ToLowerAt(t);
      assert n[0] == LowerChar(t[0]) && n[|n| - 1] == LowerChar(t[|t| - 1]);
      LowerCharKeepsWhitespace(t[0]);
      LowerCharKeepsWhitespace(t[|t| - 1]);
    }
    TrimOfTrimmed(n);
  }

  /** Normalizing twice is normalizing once. */
  lemma NormalizeIdempotent(s: string)
    ensures Normalize(Normalize(s)) == Normalize(s)
  {
    var t := Trim(s);
    TrimEmptyIff(s);
    ToLowerKeepsTrimmed(t);
    ToLowerIdempotent(t);
  }

  /** A word of lower-case ASCII letters normalizes to itself. */
  lemma NormalizeWord(w: string)
    requires forall i :: 0 <= i < |w| ==> 'a' <= w[i] <= 'z'
    ensures Normalize(w) == w
  {
    TrimOfTrimmed(w);
    ToLowerAt(w);
  }

  function InvalidFrequencyMessage(s: string): string {
    "Invalid frequency '" + (s + ("'. Valid options: " + ("daily, weekdays, " + "weekends, weekly, custom")))
  }

  /** The frequency table shared by `habit_create` and `habit_update`, on the
      normalized word: daily, weekdays, weekends, weekly (three times a week) and
      custom (Mondays). */
  function FrequencyNamed(n: string): (f: Option<Frequency>)
    ensures f.Some? ==> Validate(f.value).Pass? && !f.value.Interval?
  {
    if n == "daily" then Some(Daily)
    else if n == "weekdays" then Some(Weekdays)
    else if n == "weekends" then Some(Weekends)
    else if n == "weekly" then Some(Weekly(3))
    else if n == "custom" then Some(Frequency.Custom([Mon]))
    else None
  }

  /** `parse_frequency`: the table applied to the trimmed, lower-cased text; the
      error quotes the text as given. */
  function ParseFrequency(s: string): (r: Result<Frequency, StorageError>)
    ensures r.Success? ==> Validate(r.value).Pass?
    ensures r.Failure? ==> r.error == Query(InvalidFrequencyMessage(s))
  {
    var f := FrequencyNamed(Normalize(s));
    if f.Some? then Success(f.value) else Failure(Query(InvalidFrequencyMessage(s)))
  }

  /** The word that names a parsed frequency, for the five frequencies the table
      produces. */
  function FrequencyWord(f: Frequency): (w: Option<string>)
    ensures w.Some? ==> forall i :: 0 <= i < |w.value| ==> 'a' <= w.value[i] <= 'z'
  {
    match f
    case Daily => Some("daily")
    case Weekdays => Some("weekdays")
    case Weekends => Some("weekends")
    case Weekly(t) => if t == 3 then Some("weekly") else None
    case Custom(days) => if days == [Mon] then Some("custom") else None
    case Interval(_) => None
  }

  /** The table is a bijection between five words and five frequencies. */
  lemma FrequencyTableBijective(n: string, f: Frequency)
    ensures FrequencyNamed(n).Some? ==> FrequencyWord(FrequencyNamed(n).value) == Some(n)
    ensures FrequencyWord(f) == Some(n) ==> FrequencyNamed(n) == Some(f)
  {
  }

  /** A string parses exactly when it normalizes to one of the five words, and
      then to the frequency that word names. */
  lemma ParseFrequencyTable(s: string, f: Frequency)
    ensures ParseFrequency(s).Success? ==> FrequencyWord(ParseFrequency(s).value) == Some(Normalize(s))
    ensures FrequencyWord(f) == Some(Normalize(s)) ==> ParseFrequency(s) == Success(f)
  {
    FrequencyTableBijective(Normalize(s), f);
  }

  /** Each word parses to the frequency it names. */
  lemma ParseFrequencyWord(f: Frequency)
    requires FrequencyWord(f).Some?
    ensures ParseFrequency(FrequencyWord(f).value) == Success(f)
  {
    NormalizeWord(FrequencyWord(f).value);
    ParseFrequencyTable(FrequencyWord(f).value, f);
  }

  /** Parsing ignores case and surrounding whitespace: the normalized text parses
      the same way. An interval or a weekly count other than 3 is never produced. */
  lemma ParseFrequencyNormalized(s: string)
    ensures ParseFrequency(Normalize(s)).Success? == ParseFrequency(s).Success?
    ensures ParseFrequency(s).Success? ==> ParseFrequency(Normalize(s)).value == ParseFrequency(s).value
    ensures ParseFrequency(s).Success? ==> !ParseFrequency(s).value.Interval?
  {
    var n := Normalize(s);
    NormalizeIdempotent(s);
    assert Normalize(n) == n;
    assert ParseFrequency(n).Success? == FrequencyNamed(n).Some?;
  }

  /** No word of the table contains a colon, so the frequency syntax of the
      domain model (`weekly:3`, `interval:2`) is not accepted by the tools. */
  lemma ParseFrequencyRejectsColon(s: string, i: nat)
    requires i < |s| && s[i] == ':'
    ensures ParseFrequency(s).Failure?
  {
    var j := TrimKeeps(s, i);
    var n := Normalize(s);
    ToLowerAt(Trim(s));
    assert n[j] == ':';
    FrequencyTableBijective(n, Daily);
  }

  function InvalidCategoryMessage(s: string): string {
    "Invalid category '" + (s + ("'. Valid options: " + ("health, productivity, " + ("social, creative, "
      + ("mindfulness, financial, " + ("household, personal, " + "or custom:name"))))))
  }

  const EmptyCustomMessage := "Custom category name cannot be empty"

  /** Why a normalized word is not a category. */
  datatype CategoryProblem = UnknownCategory | EmptyCustomName

  /** The name after `custom:`, trimmed again; it must not be empty. */
  function CustomNamed(rest: string): (r: Result<Category, CategoryProblem>)
    ensures r.Success? <==> Trim(rest) != []
    ensures r.Success? ==> r.value == Category.Custom(Trim(rest)) && Trim(Trim(rest)) == Trim(rest)
    ensures r.Failure? ==> r.error == EmptyCustomName
  {
    var name := Trim(rest);
    if name == [] then Failure(EmptyCustomName)
    else
      TrimEmptyIff(rest);
      TrimOfTrimmed(name);
      Success(Category.Custom(name))
  }

  /** The category table of `habit_create`, on the normalized word: one of the
      eight stored words, or `custom:` followed by a name that is trimmed again
      and must not be empty. No stored word starts with `custom:`, so the
      prefix is tested first here without changing the result. */
  function CategoryOfWord(n: string): (r: Result<Category, CategoryProblem>)
    ensures r.Success? && r.value.Custom? ==> r.value.name != [] && Trim(r.value.name) == r.value.name
    ensures r.Success? && !r.value.Custom? ==> CategoryToString(r.value) == n
  {
    if StartsWith(n, "custom:") then CustomNamed(StripPrefix(n, "custom:"))
    else
      var stored := StringToCategory(n);
      if stored.Failure? then Failure(UnknownCategory)
      else
        StringToCategoryExact(n);
        Success(stored.value)
  }

  /** `habit_create`'s category parsing: the table applied to the trimmed,
      lower-cased text; an unknown category is reported with the text as given. */
  function ParseCategory(s: string): (r: Result<Category, StorageError>)
    ensures r.Failure? ==> r.error == Query(InvalidCategoryMessage(s)) || r.error == Query(EmptyCustomMessage)
    ensures r.Success? && r.value.Custom? ==> r.value.name != [] && Trim(r.value.name) == r.value.name
    ensures r.Success? && !r.value.Custom? ==> CategoryToString(r.value) == Normalize(s)
  {
    match CategoryOfWord(Normalize(s))
    case Success(c) => Success(c)
    case Failure(UnknownCategory) => Failure(Query(InvalidCategoryMessage(s)))
    case Failure(EmptyCustomName) => Failure(Query(EmptyCustomMessage))
  }

  /** A custom name as `habit_create` produces it: non-empty, trimmed, lower-case. */
  predicate CanonicalCustomName(name: string) {
    name != [] && Trim(name) == name && ToLower(name) == name
  }

  /** `custom:` followed by a name is a custom category exactly when the name,
      trimmed, is not empty. */
  lemma ParseCustom(s: string)
    requires StartsWith(Normalize(s), "custom:")
    ensures var name := Trim(StripPrefix(Normalize(s), "custom:"));
            ParseCategory(s) == if name == [] then Failure(Query(EmptyCustomMessage)) else Success(Category.Custom(name))
  {
    StringToCategoryCustom(Normalize(s));
  }

  /** The eight named categories are accepted in any letter case and with any
      surrounding whitespace. */
  lemma ParseCategoryNamed(s: string, c: Category)
    requires !c.Custom? && Normalize(s) == CategoryToString(c)
    ensures ParseCategory(s) == Success(c)
  {
    CategoryRoundTrip(c);
  }

  /** A text is an unknown category exactly when the storage codec would reject
      its normalized form. */
  lemma ParseCategoryUnknown(s: string)
    ensures ParseCategory(s) == Failure(Query(InvalidCategoryMessage(s))) <==> StringToCategory(Normalize(s)).Failure?
  {
    if ParseCategory(s) == Failure(Query(InvalidCategoryMessage(s))) {
      assert InvalidCategoryMessage(s) != EmptyCustomMessage by {
        assert |InvalidCategoryMessage(s)| > |EmptyCustomMessage|;
      }
    }
  }

  /** A text that starts and ends with a non-whitespace character is kept whole
      by trimming, also after a non-whitespace prefix. */
  lemma TrimPrefixed(p: string, name: string)
    requires p != [] && !IsWhitespace(p[0]) && name != [] && !IsWhitespace(name[|name| - 1])
    ensures Trim(p + name) == p + name
  {
    var s := p + name;
    assert s[0] == p[0] && s[|s| - 1] == name[|name| - 1];
    TrimOfTrimmed(s);
  }

  lemma TrimCustomText(name: string)
    requires name != [] && !IsWhitespace(name[|name| - 1])
    ensures Trim("custom:" + name) == "custom:" + name
  {
    var p := "custom:";
    assert p[0] == 'c';
    TrimPrefixed(p, name);
  }

  lemma LowerCustomPrefix()
    ensures ToLower("custom:") == "custom:"
  {
    var p := "custom:";
    ToLowerAt(p);
    assert forall k :: 0 <= k < |p| ==> LowerChar(p[k]) == p[k];
  }

  lemma LowerCustomText(name: string)
    requires CanonicalCustomName(name)
    ensures ToLower("custom:" + name) == "custom:" + name
  {
    ToLowerAppend("custom:", name);
    LowerCustomPrefix();
  }

  /** The stored text of a canonical custom category is already normalized. */
  lemma NormalizeCustomText(name: string)
    requires CanonicalCustomName(name)
    ensures Normalize("custom:" + name) == "custom:" + name
  {
    TrimEmptyIff(name);
    TrimCustomText(name);
    LowerCustomText(name);
  }

  /** Every category parsed back from its stored text is itself, when a custom
      name is in the form the parser produces: the parser and the storage codec
      agree. */
  lemma ParseCategoryStored(c: Category)
    requires c.Custom? ==> CanonicalCustomName(c.name)
    ensures ParseCategory(CategoryToString(c)) == Success(c)
  {
    if c.Custom? {
      ParseCategoryStoredCustom(c);
    } else {
      ParseCategoryStoredNamed(c);
    }
  }

  lemma ParseCategoryStoredCustom(c: Category)
    requires c.Custom? && CanonicalCustomName(c.name)
    ensures ParseCategory(CategoryToString(c)) == Success(c)
  {
    assert CategoryToString(c) == "custom:" + c.name;
    ParseCustomText(c.name);
  }

  /** `custom:` and a canonical name parses back as that name. */
  lemma ParseCustomText(name: string)
    requires CanonicalCustomName(name)
    ensures ParseCategory("custom:" + name) == Success(Category.Custom(name))
  {
    var s := "custom:" + name;
    NormalizeCustomText(name);
    CustomWord(name);
    assert CategoryOfWord(Normalize(s)) == Success(Category.Custom(name));
    ParseCategoryOfWord(s);
  }

  /** A text whose normalized form is in the table parses to that entry. */
  lemma ParseCategoryOfWord(s: string)
    requires CategoryOfWord(Normalize(s)).Success?
    ensures ParseCategory(s) == Success(CategoryOfWord(Normalize(s)).value)
  {
  }

  /** The table reads `custom:` and a canonical name back as that name. */
  lemma CustomWord(name: string)
    requires CanonicalCustomName(name)
    ensures CategoryOfWord("custom:" + name) == Success(Category.Custom(name))
  {
    CustomPrefix(name);
    CategoryOfCustomWord("custom:" + name);
  }

  lemma CustomPrefix(name: string)
    ensures StartsWith("custom:" + name, "custom:") && StripPrefix("custom:" + name, "custom:") == name
  {
    var s := "custom:" + name;
    assert s[..7] == "custom:";
    assert s[7..] == name;
  }

  /** A text that starts with `custom:` goes to the custom branch of the table. */
  lemma CategoryOfCustomWord(n: string)
    requires StartsWith(n, "custom:")
    ensures CategoryOfWord(n) == CustomNamed(StripPrefix(n, "custom:"))
  {
  }

  lemma ParseCategoryStoredNamed(c: Category)
    requires !c.Custom?
    ensures ParseCategory(CategoryToString(c)) == Success(c)
  {
    NamedWordNormalized(c);
    NamedWord(c);
  }

  /** The eight stored words are already normalized. */
  lemma NamedWordNormalized(c: Category)
    requires !c.Custom?
    ensures Normalize(CategoryToString(c)) == CategoryToString(c)
  {
    NormalizeWord(CategoryToString(c));
  }

  /** The table reads each of the eight stored words back as its category. */
  lemma NamedWord(c: Category)
    requires !c.Custom?
    ensures CategoryOfWord(CategoryToString(c)) == Success(c)
  {
    CategoryRoundTrip(c);
    StringToCategoryExact(CategoryToString(c));
  }

  /** Parsing succeeds exactly when the table has the normalized word, and then
      gives the table's category. */
  lemma ParseCategoryByTable(s: string)
    ensures ParseCategory(s).Success? == CategoryOfWord(Normalize(s)).Success?
    ensures ParseCategory(s).Success? ==> ParseCategory(s).value == CategoryOfWord(Normalize(s)).value
  {
    var w := CategoryOfWord(Normalize(s));
    if w.Success? {
      ParseCategoryOfWord(s);
    } else {
      assert w.error == UnknownCategory || w.error == EmptyCustomName;
    }
  }

  /** Category parsing ignores case and surrounding whitespace. */
  lemma ParseCategoryNormalized(s: string)
    ensures ParseCategory(Normalize(s)).Success? == ParseCategory(s).Success?
    ensures ParseCategory(s).Success? ==> ParseCategory(Normalize(s)).value == ParseCategory(s).value
  {
    NormalizeIdempotent(s);
    ParseCategoryByTable(s);
    ParseCategoryByTable(Normalize(s));
  }
}
