/**
 * The language picker of the front end: which option the closed picker
 * shows, which options the search keeps, and the open / close / select
 * handlers. `lower` stands for `String.prototype.toLowerCase`, applied
 * character by character.
 */
module LanguageDropdown {
  import opened Wrappers
  import opened Text

  /** One entry of `languageOptions`. */
  datatype Language = Language(code: string, name: string, native: string, flag: string)

  /** `languageOptions.find(lang => lang.code === selectedLanguage) ||
      languageOptions[0]`: the first option with that code, otherwise the
      first option, and nothing for an empty list. */
  function SelectedLang(options: seq<Language>, selected: string): (r: Option<Language>)
    ensures r.None? <==> options == []
    ensures (exists i :: 0 <= i < |options| && options[i].code == selected) ==>
              exists i :: 0 <= i < |options| && options[i].code == selected && r == Some(options[i])
                          && forall j :: 0 <= j < i ==> options[j].code != selected
    ensures options != [] && (forall i :: 0 <= i < |options| ==> options[i].code != selected) ==> r == Some(options[0])
  {
    match FindByCode(options, selected)
    case Some(i) => Some(options[i])
    case None => if options == [] then None else Some(options[0])
  }

  /** The position of the first option with the given code. */
  function FindByCode(options: seq<Language>, code: string): (r: Option<nat>)
    ensures r.None? <==> forall i :: 0 <= i < |options| ==> options[i].code != code
    ensures r.Some? ==> r.value < |options| && options[r.value].code == code
                        && forall j :: 0 <= j < r.value ==> options[j].code != code
  {
    if options == [] then None
    else if options[0].code == code then Some(0)
    else match FindByCode(options[1..], code)
         case None => None
         case Some(i) => Some(i + 1)
  }

  /** The search term: the query lower-cased, then trimmed. */
  function SearchTerm(lower: char -> char, query: string): string
  {
    JsTrim(MapChars(lower, query))
  }

  /** A language matches when its lower-cased name, native name or code
      contains the search term. */
  predicate MatchesSearch(lower: char -> char, lang: Language, search: string)
  {
    || Contains(MapChars(lower, lang.name), search)
    || Contains(MapChars(lower, lang.native), search)
    || Contains(MapChars(lower, lang.code), search)
  }

  /** `languageOptions.filter(...)`. */
  function KeepMatching(lower: char -> char, options: seq<Language>, search: string): (r: seq<Language>)
    ensures |r| <= |options|
  {
    if options == [] then []
    else if MatchesSearch(lower, options[0], search) then [options[0]] + KeepMatching(lower, options[1..], search)
    else KeepMatching(lower, options[1..], search)
  }

  /** `filteredLanguages`: a query that is blank once trimmed keeps the
      list as it is; any other keeps the matching options. */
  function FilteredLanguages(lower: char -> char, options: seq<Language>, debouncedSearch: string): seq<Language>
  {
    if JsTrim(debouncedSearch) == [] then options
    else KeepMatching(lower, options, SearchTerm(lower, debouncedSearch))
  }

  /** `a` is `b` with some elements left out, the rest in order. */
  predicate IsSubsequence<T(==)>(a: seq<T>, b: seq<T>)
    decreases |b|
  {
    if a == [] then true
    else if b == [] then false
    else if a[0] == b[0] then IsSubsequence(a[1..], b[1..])
    else IsSubsequence(a, b[1..])
  }

  /** The filter keeps exactly the matching options... */
  lemma {:induction false} KeepMatchingMembers(lower: char -> char, options: seq<Language>, search: string)
    ensures forall l :: l in KeepMatching(lower, options, search) <==> l in options && MatchesSearch(lower, l, search)
  {
    if options != [] {
      KeepMatchingMembers(lower, options[1..], search);
      assert forall l :: l in options <==> l == options[0] || l in options[1..];
    }
  }

  /** ... each as many times as it occurs in the options ... */
  lemma {:induction false} KeepMatchingCounts(lower: char -> char, options: seq<Language>, search: string)
    ensures forall l :: multiset(KeepMatching(lower, options, search))[l]
                        == if MatchesSearch(lower, l, search) then multiset(options)[l] else 0
  {
    if options != [] {
      KeepMatchingCounts(lower, options[1..], search);
      assert options == [options[0]] + options[1..];
    }
  }

  /** ... in their original order. */
  lemma {:induction false} KeepMatchingInOrder(lower: char -> char, options: seq<Language>, search: string)
    ensures IsSubsequence(KeepMatching(lower, options, search), options)
  {
    if options != [] {
      KeepMatchingInOrder(lower, options[1..], search);
      var rest := KeepMatching(lower, options[1..], search);
      if MatchesSearch(lower, options[0], search) {
        assert ([options[0]] + rest)[1..] == rest;
      } else {
        SubsequenceOfTail(rest, options);
      }
    }
  }

  /** Dropping the first element of a subsequence keeps it one. */
  lemma {:induction false} SubsequenceDropFirst<T>(a: seq<T>, c: seq<T>)
    requires a != [] && IsSubsequence(a, c)
    ensures IsSubsequence(a[1..], c)
    decreases |c|, 1
  {
    if a[0] != c[0] {
      SubsequenceDropFirst(a, c[1..]);
    }
    SubsequenceOfTail(a[1..], c);
  }

  /** A subsequence of the tail is a subsequence of the whole. */
  lemma {:induction false} SubsequenceOfTail<T>(a: seq<T>, b: seq<T>)
    requires b != [] && IsSubsequence(a, b[1..])
    ensures IsSubsequence(a, b)
    decreases |b|, 0
  {
    if a != [] && a[0] == b[0] {
      SubsequenceDropFirst(a, b[1..]);
    }
  }

  /** A blank search leaves the list untouched; any other search keeps an
      ordered selection of it, exactly the matching options, duplicates
      included. */
  lemma FilteredLanguagesSpec(lower: char -> char, options: seq<Language>, debouncedSearch: string)
    ensures JsTrim(debouncedSearch) == [] ==> FilteredLanguages(lower, options, debouncedSearch) == options
    ensures IsSubsequence(FilteredLanguages(lower, options, debouncedSearch), options)
    ensures JsTrim(debouncedSearch) != [] ==>
              forall l :: l in FilteredLanguages(lower, options, debouncedSearch)
                          <==> l in options && MatchesSearch(lower, l, SearchTerm(lower, debouncedSearch))
    ensures JsTrim(debouncedSearch) != [] ==>
              forall l :: multiset(FilteredLanguages(lower, options, debouncedSearch))[l]
                          == if MatchesSearch(lower, l, SearchTerm(lower, debouncedSearch)) then multiset(options)[l] else 0
  {
    var search := SearchTerm(lower, debouncedSearch);
    KeepMatchingMembers(lower, options, search);
    KeepMatchingCounts(lower, options, search);
    KeepMatchingInOrder(lower, options, search);
    SubsequenceOfItself(options);
  }

  lemma {:induction false} SubsequenceOfItself<T>(a: seq<T>)
    ensures IsSubsequence(a, a)
  {
    if a != [] {
      SubsequenceOfItself(a[1..]);
    }
  }

  /** The picker's own state. `reported` lists the codes passed to
      `onLanguageChange`, oldest first. */
  class Dropdown {
    const languageOptions: seq<Language>
    var isOpen: bool
    var searchQuery: string
    var debouncedSearch: string
    var reported: seq<string>

    constructor (options: seq<Language>)
      ensures languageOptions == options
      ensures !isOpen && searchQuery == [] && debouncedSearch == [] && reported == []
    {
      languageOptions := options;
      isOpen := false;
      searchQuery := [];
      debouncedSearch := [];
      reported := [];
    }

    /** The list shown under the search box. */
    function Shown(lower: char -> char): seq<Language>
      reads this
    {
      FilteredLanguages(lower, languageOptions, debouncedSearch)
    }

    /** `handleOpen` (the position update is not modelled). */
    method HandleOpen()
      modifies this`isOpen
      ensures isOpen
    {
      isOpen := true;
    }

    /** `handleClose`: closed, with both the query and its debounced copy
        cleared, so the next opening lists every language. */
    method HandleClose()
      modifies this`isOpen, this`searchQuery, this`debouncedSearch
      ensures !isOpen && searchQuery == [] && debouncedSearch == []
      ensures forall lower :: Shown(lower) == languageOptions
    {
      isOpen := false;
      searchQuery := [];
      debouncedSearch := [];
      assert JsTrim([]) == [];
    }

    /** `handleSelect`: reports the code, then closes. */
    method HandleSelect(langCode: string)
      modifies this`isOpen, this`searchQuery, this`debouncedSearch, this`reported
      ensures reported == old(reported) + [langCode]
      ensures !isOpen && searchQuery == [] && debouncedSearch == []
    {
      reported := reported + [langCode];
      HandleClose();
    }

    /** Typing in the search box. */
    method SetSearchQuery(query: string)
      modifies this`searchQuery
      ensures searchQuery == query
    {
      searchQuery := query;
    }

    /** The debounce timer firing: the filter catches up with the query. */
    method DebounceFired()
      modifies this`debouncedSearch
      ensures debouncedSearch == searchQuery
    {
      debouncedSearch := searchQuery;
    }
  }
}
