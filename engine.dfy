/**
 * The prediction engine's state: five vocabulary tiers, whether the engine
 * is initialized, and the load status shown to the user. Initialization
 * allocates and fills the tiers, degrading tier by tier when word-list
 * files are missing; the suggestions search the tiers in the order
 * tier1, tier3a, tier3b, tier2, tier4.
 */
module Engine {
  import opened Wrappers
  import opened Text
  import opened WordList
  import opened WordTiers
  import opened Matching
  import opened Tokens
  import opened Search

  newtype uint8 = x: int | 0 <= x < 256

  /** The contents of the five word-list files; `None` where a file cannot be opened. */
  datatype DataFiles = DataFiles(
    tier1: Option<string>,  // function words
    tier2: Option<string>,  // common lemmas
    tier3a: Option<string>, // chat and internet slang
    tier3b: Option<string>, // fillers
    tier4: Option<string>)  // formal discourse

  /** Words put into tier1 when loading leaves it empty, in this order. */
  const Fallback: seq<string> := [
    "the", "that", "this", "to", "it", "is", "in", "and", "have",
    "we", "were", "will", "would", "hello", "help", "world", "work"]

  const NotInitializedMessage: string := "T9+ not initialized"
  const NoFilesMessage: string := "ERROR: No data files found!"

  /** Size of the error-message buffer, terminator included. */
  const ErrorMessageSize: nat := 64

  /** How many of the five word-list files cannot be opened. */
  function MissingCount(files: DataFiles): (n: nat)
    ensures n <= 5
    ensures n == 0 <==>
      files.tier1.Some? && files.tier2.Some? && files.tier3a.Some? &&
      files.tier3b.Some? && files.tier4.Some?
    ensures n == 5 <==>
      files.tier1.None? && files.tier2.None? && files.tier3a.None? &&
      files.tier3b.None? && files.tier4.None?
  {
    Missing(files.tier1) + Missing(files.tier2) + Missing(files.tier3a) +
    Missing(files.tier3b) + Missing(files.tier4)
  }

  /** 1 for a file that cannot be opened, 0 for one that can. */
  function Missing(file: Option<string>): nat {
    if file.None? then 1 else 0
  }

  /** The decimal digit of `n`. */
  function Digit(n: nat): (c: char)
    requires n < 10
    ensures '0' <= c <= '9' && c as int - '0' as int == n
  {
    ('0' as int + n) as char
  }

  /** The load status message when `missing` files could not be opened. */
  function LoadMessage(missing: nat): string
    requires missing <= 5
  {
    if missing == 0 then ""
    else if missing == 5 then NoFilesMessage
    else "WARNING: " + [Digit(missing)] + " data file(s) missing"
  }

  /** The message fits its buffer, and is empty exactly when no file is missing. */
  lemma LoadMessageFits(m: nat)
    requires m <= 5
    ensures |LoadMessage(m)| < ErrorMessageSize
    ensures LoadMessage(m) == "" <==> m == 0
  {
    if 0 < m < 5 {
      assert |LoadMessage(m)| == 31;
    }
  }

  /** The message tells how many files are missing. */
  lemma LoadMessageInjective(m: nat, n: nat)
    requires m <= 5 && n <= 5 && LoadMessage(m) == LoadMessage(n)
    ensures m == n
  {
    LoadMessageFits(m);
    LoadMessageFits(n);
    if 0 < m < 5 && 0 < n < 5 {
      assert LoadMessage(m)[9] == Digit(m);
      assert LoadMessage(n)[9] == Digit(n);
    }
  }

  /** The words a tier holds after loading `file` into it while empty. */
  function LoadedWords(file: Option<string>): (r: seq<string>)
    ensures |r| <= MaxTierWords
    ensures file.None? ==> r == []
    ensures file.Some? ==> r <= ParseWords(file.value)
    ensures file.Some? && |r| < MaxTierWords ==> r == ParseWords(file.value)
  {
    match file
    case None => []
    case Some(t) =>
      AppendBoundedShape([], ParseWords(t), MaxTierWords);
      assert [] + ParseWords(t) == ParseWords(t);
      AppendBounded([], ParseWords(t), MaxTierWords)
  }

  /** The words of tier1 after initialization: its file's words, or the fallback words. */
  function Tier1Words(file: Option<string>): (r: seq<string>)
    ensures r != [] && |r| <= MaxTierWords
    ensures LoadedWords(file) != [] ==> r == LoadedWords(file)
  {
    if LoadedWords(file) == [] then Fallback else LoadedWords(file)
  }

  predicate AllAllocated(allocOk: seq<bool>)
    requires |allocOk| == 5
  {
    allocOk[0] && allocOk[1] && allocOk[2] && allocOk[3] && allocOk[4]
  }

  class T9Plus {
    const tier1: WordTier  // function words
    const tier2: WordTier  // common lemmas
    const tier3a: WordTier // chat and internet slang
    const tier3b: WordTier // fillers
    const tier4: WordTier  // formal discourse
    var initialized: bool
    var hasLoadErrors: bool
    var errorMessage: string

    // The tiers and their storage arrays are listed pairwise distinct: the C
    // record embeds five separate structs, each owning its own allocation.
    ghost predicate TiersDistinct() {
      tier1 != tier2 && tier1 != tier3a && tier1 != tier3b && tier1 != tier4 &&
      tier2 != tier3a && tier2 != tier3b && tier2 != tier4 &&
      tier3a != tier3b && tier3a != tier4 && tier3b != tier4
    }

    /** Every tier holds its own storage, of `MaxTierWords` words. */
    ghost predicate Allocated()
      reads tier1, tier2, tier3a, tier3b, tier4
      reads tier1.words, tier2.words, tier3a.words, tier3b.words, tier4.words
    {
      TiersDistinct() &&
      tier1.Valid() && tier2.Valid() && tier3a.Valid() && tier3b.Valid() && tier4.Valid() &&
      tier1.words != null && tier2.words != null && tier3a.words != null &&
      tier3b.words != null && tier4.words != null &&
      tier1.capacity == MaxTierWords && tier2.capacity == MaxTierWords &&
      tier3a.capacity == MaxTierWords && tier3b.capacity == MaxTierWords &&
      tier4.capacity == MaxTierWords &&
      tier1.words != tier2.words && tier1.words != tier3a.words && tier1.words != tier3b.words &&
      tier1.words != tier4.words && tier2.words != tier3a.words && tier2.words != tier3b.words &&
      tier2.words != tier4.words && tier3a.words != tier3b.words && tier3a.words != tier4.words &&
      tier3b.words != tier4.words
    }

    ghost predicate AllReleased()
      reads tier1, tier2, tier3a, tier3b, tier4
    {
      tier1.Released() && tier2.Released() && tier3a.Released() &&
      tier3b.Released() && tier4.Released()
    }

    /** An initialized engine owns five allocated tiers; otherwise every tier is released. */
    ghost predicate Valid()
      reads this, tier1, tier2, tier3a, tier3b, tier4
      reads tier1.words, tier2.words, tier3a.words, tier3b.words, tier4.words
    {
      TiersDistinct() &&
      (initialized ==> Allocated()) &&
      (!initialized ==> AllReleased())
    }

    /** The vocabulary in search order: tier1, tier3a, tier3b, tier2, tier4. */
    ghost function Candidates(): (r: seq<string>)
      reads this, tier1, tier2, tier3a, tier3b, tier4
      reads tier1.words, tier2.words, tier3a.words, tier3b.words, tier4.words
      requires Valid()
      ensures tier1.Contents() <= r
      ensures |r| == tier1.count + tier3a.count + tier3b.count + tier2.count + tier4.count
    {
      tier1.Contents() + tier3a.Contents() + tier3b.Contents() + tier2.Contents() + tier4.Contents()
    }

    /** The zero-initialized state record. */
    constructor ()
      ensures Valid() && !initialized && !hasLoadErrors && errorMessage == ""
      ensures fresh(tier1) && fresh(tier2) && fresh(tier3a) && fresh(tier3b) && fresh(tier4)
    {
      tier1 := new WordTier();
      tier2 := new WordTier();
      tier3a := new WordTier();
      tier3b := new WordTier();
      tier4 := new WordTier();
      initialized := false;
      hasLoadErrors := false;
      errorMessage := "";
    }

    /**
     * Initializes the engine. `allocOk` holds the outcomes of the storage
     * allocations for tier1, tier2, tier3a, tier3b and tier4, in that order,
     * and `files` the word-list files. A second call changes nothing.
     */
    method Init(allocOk: seq<bool>, files: DataFiles) returns (ok: bool)
      requires Valid() && |allocOk| == 5
      modifies this, tier1, tier2, tier3a, tier3b, tier4
      ensures Valid()
      ensures old(initialized) ==>
        ok && unchanged(this) && unchanged(tier1, tier2, tier3a, tier3b, tier4)
      ensures !old(initialized) ==> ok == AllAllocated(allocOk) && initialized == ok
      ensures !old(initialized) && !ok ==>
        hasLoadErrors == old(hasLoadErrors) && errorMessage == old(errorMessage)
      ensures !old(initialized) && ok ==>
        tier1.Contents() == Tier1Words(files.tier1) &&
        tier2.Contents() == LoadedWords(files.tier2) &&
        tier3a.Contents() == LoadedWords(files.tier3a) &&
        tier3b.Contents() == LoadedWords(files.tier3b) &&
        tier4.Contents() == LoadedWords(files.tier4) &&
        hasLoadErrors == (MissingCount(files) > 0) &&
        errorMessage == LoadMessage(MissingCount(files))
    {
      if initialized {
        return true;
      }
      ok := AllocTiers(allocOk);
      if !ok {
        return;
      }
      LoadAll(files);
    }

    /**
     * Fills freshly allocated tiers from their files, puts the fallback
     * words into tier1 if it is still empty, and records the load status.
     */
    method LoadAll(files: DataFiles)
      requires !initialized && Allocated()
      requires tier1.count == 0 && tier2.count == 0 && tier3a.count == 0 &&
        tier3b.count == 0 && tier4.count == 0
      modifies this, tier1, tier2, tier3a, tier3b, tier4
      modifies tier1.words, tier2.words, tier3a.words, tier3b.words, tier4.words
      ensures Valid() && initialized
      ensures tier1.Contents() == Tier1Words(files.tier1) &&
        tier2.Contents() == LoadedWords(files.tier2) &&
        tier3a.Contents() == LoadedWords(files.tier3a) &&
        tier3b.Contents() == LoadedWords(files.tier3b) &&
        tier4.Contents() == LoadedWords(files.tier4)
      ensures hasLoadErrors == (MissingCount(files) > 0)
      ensures errorMessage == LoadMessage(MissingCount(files))
      ensures GetErrorMessage() ==
        if MissingCount(files) == 0 then None else Some(LoadMessage(MissingCount(files)))
    {
      var failedCount := LoadTiers(files);
      FallbackIfEmpty(files.tier1);
      RecordStatus(failedCount);
      initialized := true;
    }

    /** Puts the fallback words into tier1 when its file gave it no words. */
    method FallbackIfEmpty(ghost file: Option<string>)
      requires Allocated() && tier1.Contents() == LoadedWords(file)
      modifies tier1, tier1.words
      ensures Allocated() && tier1.words == old(tier1.words)
      ensures tier1.Contents() == Tier1Words(file)
    {
      if tier1.count == 0 {
        AddFallbackWords(tier1);
      }
    }

    /** Records the load status when `failedCount` of the five files could not be opened. */
    method RecordStatus(failedCount: nat)
      requires failedCount <= 5
      modifies this
      ensures initialized == old(initialized)
      ensures hasLoadErrors == (failedCount > 0) && errorMessage == LoadMessage(failedCount)
    {
      var allLoaded := failedCount == 0;
      if !allLoaded {
        hasLoadErrors := true;
        if failedCount == 5 {
          errorMessage := NoFilesMessage;
        } else {
          errorMessage := "WARNING: " + [Digit(failedCount)] + " data file(s) missing";
        }
      } else {
        hasLoadErrors := false;
        errorMessage := "";
      }
    }

    /**
     * Allocates the five tiers in the order tier1, tier2, tier3a, tier3b,
     * tier4; when one allocation fails, the tiers allocated before it are
     * released again.
     */
    method AllocTiers(allocOk: seq<bool>) returns (ok: bool)
      requires Valid() && !initialized && |allocOk| == 5
      modifies tier1, tier2, tier3a, tier3b, tier4
      ensures ok == AllAllocated(allocOk)
      ensures ok ==>
        Allocated() && tier1.count == 0 && tier2.count == 0 &&
        tier3a.count == 0 && tier3b.count == 0 && tier4.count == 0
      ensures ok ==>
        fresh(tier1.words) && fresh(tier2.words) && fresh(tier3a.words) &&
        fresh(tier3b.words) && fresh(tier4.words)
      ensures !ok ==> AllReleased()
    {
      ok := tier1.Alloc(MaxTierWords, allocOk[0]);
      if !ok {
        return;
      }
      ok := tier2.Alloc(MaxTierWords, allocOk[1]);
      if !ok {
        tier1.Free();
        return;
      }
      ok := tier3a.Alloc(MaxTierWords, allocOk[2]);
      if !ok {
        tier1.Free();
        tier2.Free();
        return;
      }
      ok := tier3b.Alloc(MaxTierWords, allocOk[3]);
      if !ok {
        tier1.Free();
        tier2.Free();
        tier3a.Free();
        return;
      }
      ok := tier4.Alloc(MaxTierWords, allocOk[4]);
      if !ok {
        tier1.Free();
        tier2.Free();
        tier3a.Free();
        tier3b.Free();
        return;
      }
    }

    /**
     * Loads each tier from its file; returns how many files could not be opened.
     * The five loads run in the source's order; they are grouped into
     * `LoadFront` and `LoadBack` only to keep each proof of framing small.
     */
    method LoadTiers(files: DataFiles) returns (failedCount: nat)
      requires Allocated()
      requires tier1.count == 0 && tier2.count == 0 && tier3a.count == 0 &&
        tier3b.count == 0 && tier4.count == 0
      modifies tier1, tier2, tier3a, tier3b, tier4
      modifies tier1.words, tier2.words, tier3a.words, tier3b.words, tier4.words
      ensures Allocated()
      ensures tier1.words == old(tier1.words) && tier2.words == old(tier2.words) &&
        tier3a.words == old(tier3a.words) && tier3b.words == old(tier3b.words) &&
        tier4.words == old(tier4.words)
      ensures failedCount == MissingCount(files)
      ensures tier1.Contents() == LoadedWords(files.tier1) &&
        tier2.Contents() == LoadedWords(files.tier2) &&
        tier3a.Contents() == LoadedWords(files.tier3a) &&
        tier3b.Contents() == LoadedWords(files.tier3b) &&
        tier4.Contents() == LoadedWords(files.tier4)
    {
      var front := LoadFront(files);
      var back := LoadBack(files);
      failedCount := front + back;
    }

    /** Loads tier1 and tier2; returns how many of their files could not be opened. */
    method LoadFront(files: DataFiles) returns (failed: nat)
      requires Allocated() && tier1.count == 0 && tier2.count == 0
      modifies tier1, tier2, tier1.words, tier2.words
      ensures Allocated()
      ensures tier1.words == old(tier1.words) && tier2.words == old(tier2.words)
      ensures failed == Missing(files.tier1) + Missing(files.tier2)
      ensures tier1.Contents() == LoadedWords(files.tier1) &&
        tier2.Contents() == LoadedWords(files.tier2)
    {
      var loaded := LoadTierFromFile(files.tier1, tier1);
      failed := if loaded then 0 else 1;
      loaded := LoadTierFromFile(files.tier2, tier2);
      failed := failed + if loaded then 0 else 1;
    }

    /** Loads tier3a, tier3b and tier4; returns how many of their files could not be opened. */
    method LoadBack(files: DataFiles) returns (failed: nat)
      requires Allocated() && tier3a.count == 0 && tier3b.count == 0 && tier4.count == 0
      modifies tier3a, tier3b, tier4, tier3a.words, tier3b.words, tier4.words
      ensures Allocated()
      ensures tier3a.words == old(tier3a.words) && tier3b.words == old(tier3b.words) &&
        tier4.words == old(tier4.words)
      ensures failed == Missing(files.tier3a) + Missing(files.tier3b) + Missing(files.tier4)
      ensures tier3a.Contents() == LoadedWords(files.tier3a) &&
        tier3b.Contents() == LoadedWords(files.tier3b) &&
        tier4.Contents() == LoadedWords(files.tier4)
    {
      var loaded := LoadTierFromFile(files.tier3a, tier3a);
      failed := if loaded then 0 else 1;
      loaded := LoadTierFromFile(files.tier3b, tier3b);
      failed := failed + if loaded then 0 else 1;
      loaded := LoadTierFromFile(files.tier4, tier4);
      failed := failed + if loaded then 0 else 1;
    }

    /** Releases every tier of an initialized engine; otherwise does nothing. */
    method Deinit()
      requires Valid()
      modifies this, tier1, tier2, tier3a, tier3b, tier4
      ensures Valid() && !initialized && AllReleased()
      ensures hasLoadErrors == old(hasLoadErrors) && errorMessage == old(errorMessage)
      ensures !old(initialized) ==> unchanged(tier1, tier2, tier3a, tier3b, tier4)
    {
      if !initialized {
        return;
      }
      tier1.Free();
      tier2.Free();
      tier3a.Free();
      tier3b.Free();
      tier4.Free();
      initialized := false;
    }

    /** The status to show: not initialized, the load problem, or none (`None`). */
    function GetErrorMessage(): (r: Option<string>)
      reads this
      ensures r == None <==> initialized && !hasLoadErrors
      ensures !initialized ==> r == Some(NotInitializedMessage)
      ensures initialized && r.Some? ==> r.value == errorMessage
    {
      if !initialized then Some(NotInitializedMessage)
      else if hasLoadErrors then Some(errorMessage)
      else None
    }

    /**
     * Fills `suggestions` with the suggestions for the typed text `input`
     * (`None` for a null pointer) and returns how many there are: at most
     * `maxSuggestions`, and never more than three.
     */
    method GetSuggestions(input: Option<string>, suggestions: array<string>, maxSuggestions: uint8)
      returns (found: uint8)
      requires Valid() && suggestions.Length == MaxSuggestions
      requires input.Some? ==> IsCString(input.value)
      requires suggestions != tier1.words && suggestions != tier2.words &&
        suggestions != tier3a.words && suggestions != tier3b.words && suggestions != tier4.words
      modifies suggestions
      ensures found as nat <= Min(maxSuggestions as nat, MaxSuggestions)
      ensures !initialized || input.None? ==> found == 0
      ensures initialized && input.Some? ==>
        suggestions[..found] == Suggest(old(Candidates()), input.value, maxSuggestions as nat)
      ensures forall k :: found as int <= k < suggestions.Length ==> suggestions[k] == old(suggestions[k])
    {
      if !initialized {
        found := 0;
      } else if input.None? || |input.value| == 0 {
        found := 0;
        assert input.Some? ==> Suggest(old(Candidates()), input.value, maxSuggestions as nat) == [] by {
          if input.Some? {
            TokenEmptyIff(input.value);
          }
        }
      } else {
        found := SuggestFor(input.value, suggestions, maxSuggestions);
      }
    }

    /** The suggestions for a non-empty typed text, once the engine is initialized. */
    method SuggestFor(text: string, suggestions: array<string>, maxSuggestions: uint8)
      returns (found: uint8)
      requires Valid() && initialized && suggestions.Length == MaxSuggestions && IsCString(text)
      requires suggestions != tier1.words && suggestions != tier2.words &&
        suggestions != tier3a.words && suggestions != tier3b.words && suggestions != tier4.words
      modifies suggestions
      ensures found as nat <= Min(maxSuggestions as nat, MaxSuggestions)
      ensures suggestions[..found] == Suggest(old(Candidates()), text, maxSuggestions as nat)
      ensures forall k :: found as int <= k < suggestions.Length ==> suggestions[k] == old(suggestions[k])
    {
      var max := maxSuggestions;
      if max > MaxSuggestions as uint8 {
        max := MaxSuggestions as uint8;
      }
      var token := ExtractToken(text);
      if token == [] {
        return 0;
      }
      assert Suggest(Candidates(), text, maxSuggestions as nat) ==
        ShownAll(Take(Matches(Candidates(), token), max as nat)) by {
        assert max as nat == Min(maxSuggestions as nat, MaxSuggestions);
      }
      var n := SearchTiers(token, suggestions, max as nat);
      found := n as uint8;
    }

    /**
     * Searches the tiers in the order tier1, tier3a, tier3b, tier2, tier4,
     * each only while fewer than `max` suggestions have been found.
     */
    method SearchTiers(token: string, suggestions: array<string>, max: nat) returns (n: nat)
      requires Valid() && initialized && max <= suggestions.Length
      requires suggestions != tier1.words && suggestions != tier2.words &&
        suggestions != tier3a.words && suggestions != tier3b.words && suggestions != tier4.words
      modifies suggestions
      ensures n <= max
      ensures suggestions[..n] == ShownAll(Take(Matches(old(Candidates()), token), max))
      ensures forall k :: n <= k < suggestions.Length ==> suggestions[k] == old(suggestions[k])
    {
      ghost var c1, c3a, c3b, c2, c4 :=
        tier1.Contents(), tier3a.Contents(), tier3b.Contents(), tier2.Contents(), tier4.Contents();
      n := SearchTier(tier1, token, suggestions, 0, max);
      assert suggestions[..n] == ShownAll(Take(Matches(c1, token), max)) by {
        SearchStep([], c1, token, max);
        assert [] + c1 == c1;
      }
      n := SearchNext(tier3a, token, suggestions, n, max, c1);
      n := SearchNext(tier3b, token, suggestions, n, max, c1 + c3a);
      n := SearchNext(tier2, token, suggestions, n, max, c1 + c3a + c3b);
      n := SearchNext(tier4, token, suggestions, n, max, c1 + c3a + c3b + c2);
    }
  }

  /**
   * Searches `tier` after the tiers whose words are `done`, unless `max`
   * suggestions have already been found.
   */
  method SearchNext(tier: WordTier, token: string, suggestions: array<string>, n: nat, max: nat,
                    ghost done: seq<string>)
    returns (newN: nat)
    requires tier.Valid() && suggestions != tier.words && n <= max <= suggestions.Length
    requires suggestions[..n] == ShownAll(Take(Matches(done, token), max))
    modifies suggestions
    ensures newN <= max
    ensures suggestions[..newN] == ShownAll(Take(Matches(done + tier.Contents(), token), max))
    ensures n <= newN
    ensures forall k :: newN <= k < suggestions.Length ==> suggestions[k] == old(suggestions[k])
  {
    SearchStep(done, tier.Contents(), token, max);
    if n < max {
      newN := SearchTier(tier, token, suggestions, n, max);
    } else {
      newN := n;
    }
  }

  /** Adds the fallback words to an empty tier, in order. */
  method AddFallbackWords(tier: WordTier)
    requires tier.Valid() && tier.count == 0 && tier.capacity >= |Fallback|
    modifies tier, tier.words
    ensures tier.Valid() && tier.words == old(tier.words) && tier.capacity == old(tier.capacity)
    ensures tier.Contents() == Fallback
  {
    for k := 0 to |Fallback|
      invariant tier.Valid() && tier.words == old(tier.words) && tier.capacity == old(tier.capacity)
      invariant tier.count == k && tier.Contents() == Fallback[..k]
    {
      assert IsCString(Fallback[k]);
      var _ := tier.AddWord(Fallback[k]);
    }
  }
}
