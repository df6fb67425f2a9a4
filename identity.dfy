/**
  The "interests" file tree: the list of expanded folder names, toggled by a
  click on a folder row, and the icon chosen for a file from its name's suffix.
 */
module FolderTree {

  datatype File = File(name: string, desc: string)

  datatype Folder = Folder(name: string, files: seq<File>)

  const Folders: seq<Folder> := [
    Folder("fitness", [File("workout_routine.md", "Esecuzione"), File("progress.log", "Progressi incrementali")]),
    Folder("books", [File("psychology.pdf", "Modelli mentali"), File("economics.epub", "Come funziona il mondo"),
                     File("physics.pdf", "Dalla quantistica al cosmo")]),
    Folder("youtube", [File("3blue1brown.url", "Matematica visualizzata"), File("veritasium.url", "Scienza raccontata bene")])
  ]

  /** Only the fitness folder starts expanded. */
  const InitialExpanded: seq<string> := ["fitness"]

  // ---------------------------------------------------------------------
  // Toggling

  /** `filter(f => f !== name)`: every occurrence of `name` dropped, the rest in order. */
  function Remove(s: seq<string>, name: string): (r: seq<string>)
    ensures |r| <= |s|
  {
    if s == [] then []
    else if s[0] == name then Remove(s[1..], name)
    else [s[0]] + Remove(s[1..], name)
  }

  /** `toggleFolder`: a listed name is removed, an unlisted one appended at the end. */
  function Toggle(expanded: seq<string>, name: string): (r: seq<string>)
    ensures name in r <==> name !in expanded
    ensures |r| <= |expanded| + 1
  {
    if name in expanded then
      RemoveMembership(expanded, name, name);
      Remove(expanded, name)
    else expanded + [name]
  }

  /** A folder row is shown open exactly when its name is in the list. */
  predicate IsExpanded(expanded: seq<string>, name: string)
  {
    name in expanded
  }

  /** Removal drops `name` and keeps every other name's membership. */
  lemma {:induction false} RemoveMembership(s: seq<string>, name: string, other: string)
    ensures name !in Remove(s, name)
    ensures other != name ==> (other in Remove(s, name) <==> other in s)
    decreases |s|
  {
    if s != [] {
      RemoveMembership(s[1..], name, other);
      assert s == [s[0]] + s[1..];
    }
  }

  /** After a toggle the toggled folder has flipped and every other folder is as it was. */
  lemma ToggleFlips(expanded: seq<string>, name: string, other: string)
    ensures IsExpanded(Toggle(expanded, name), name) <==> !IsExpanded(expanded, name)
    ensures other != name ==> (IsExpanded(Toggle(expanded, name), other) <==> IsExpanded(expanded, other))
  {
    RemoveMembership(expanded, name, other);
  }

  /** `a` is `b` with some entries left out, the rest in their original order. */
  predicate SubsequenceOf(a: seq<string>, b: seq<string>)
    decreases |b|
  {
    if a == [] then true
    else if b == [] then false
    else if a[0] == b[0] then SubsequenceOf(a[1..], b[1..])
    else SubsequenceOf(a, b[1..])
  }

  /** Removal keeps the relative order of the names that remain. */
  lemma {:induction false} RemoveKeepsOrder(s: seq<string>, name: string)
    ensures SubsequenceOf(Remove(s, name), s)
    decreases |s|
  {
    if s != [] {
      RemoveKeepsOrder(s[1..], name);
      if s[0] == name {
        SubsequenceOfSkip(Remove(s[1..], name), s[1..], s[0]);
      }
    }
  }

  /** Leaving out one more leading entry keeps a subsequence a subsequence. */
  lemma {:induction false} SubsequenceOfSkip(a: seq<string>, b: seq<string>, x: string)
    requires SubsequenceOf(a, b)
    ensures SubsequenceOf(a, [x] + b)
    decreases |b|, 1
  {
    if a != [] && a[0] == x {
      // Matching `x` against `a[0]` needs `a[1..]` to be a subsequence of `b`.
      SubsequenceDropHead(a, b);
    }
  }

  lemma {:induction false} SubsequenceDropHead(a: seq<string>, b: seq<string>)
    requires a != [] && SubsequenceOf(a, b)
    ensures SubsequenceOf(a[1..], b)
    decreases |b|, 0
  {
    if a[0] == b[0] {
      SubsequenceOfSkip(a[1..], b[1..], b[0]);
      assert b == [b[0]] + b[1..];
    } else {
      SubsequenceDropHead(a, b[1..]);
      SubsequenceOfSkip(a[1..], b[1..], b[0]);
      assert b == [b[0]] + b[1..];
    }
  }

  predicate NoDuplicates(s: seq<string>)
  {
    forall i, j :: 0 <= i < j < |s| ==> s[i] != s[j]
  }

  /** In a list without duplicates removal drops exactly one entry and leaves no duplicates. */
  lemma {:induction false} RemoveDistinct(s: seq<string>, name: string)
    requires NoDuplicates(s)
    ensures NoDuplicates(Remove(s, name))
    ensures name in s ==> |Remove(s, name)| == |s| - 1
    ensures name !in s ==> Remove(s, name) == s
    decreases |s|
  {
    if s != [] {
      assert NoDuplicates(s[1..]) by {
        forall i, j | 0 <= i < j < |s| - 1 ensures s[1..][i] != s[1..][j] {
          assert s[1..][i] == s[i + 1] && s[1..][j] == s[j + 1];
        }
      }
      RemoveDistinct(s[1..], name);
      if s[0] == name {
        assert name !in s[1..] by {
          forall k | 0 <= k < |s| - 1 ensures s[1..][k] != name {
            assert s[1..][k] == s[k + 1];
          }
        }
      } else {
        var rest := Remove(s[1..], name);
        RemoveMembership(s[1..], name, s[0]);
        assert s[0] !in s[1..] by {
          forall k | 0 <= k < |s| - 1 ensures s[1..][k] != s[0] {
            assert s[1..][k] == s[k + 1];
          }
        }
        assert name in s ==> name in s[1..] by {
          assert s == [s[0]] + s[1..];
        }
        forall i, j | 0 <= i < j < |rest| + 1 ensures ([s[0]] + rest)[i] != ([s[0]] + rest)[j] {
          if i == 0 {
            assert ([s[0]] + rest)[j] == rest[j - 1];
          }
        }
        assert s == [s[0]] + s[1..];
      }
    }
  }

  /** A toggle keeps a list free of duplicates and changes its length by exactly one. */
  lemma ToggleDistinct(expanded: seq<string>, name: string)
    requires NoDuplicates(expanded)
    ensures NoDuplicates(Toggle(expanded, name))
    ensures name in expanded ==> |Toggle(expanded, name)| == |expanded| - 1
    ensures name !in expanded ==> |Toggle(expanded, name)| == |expanded| + 1
  {
    RemoveDistinct(expanded, name);
    if name !in expanded {
      var r := expanded + [name];
      forall i, j | 0 <= i < j < |r| ensures r[i] != r[j] {
        if j == |expanded| {
          assert r[i] == expanded[i];
        }
      }
    }
  }

  /** Removing a name that is not there changes nothing. */
  lemma {:induction false} RemoveAbsent(s: seq<string>, name: string)
    requires name !in s
    ensures Remove(s, name) == s
    decreases |s|
  {
    if s != [] {
      assert s == [s[0]] + s[1..];
      RemoveAbsent(s[1..], name);
    }
  }

  /** Removal distributes over concatenation. */
  lemma {:induction false} RemoveAppend(a: seq<string>, b: seq<string>, name: string)
    ensures Remove(a + b, name) == Remove(a, name) + Remove(b, name)
    decreases |a|
  {
    if a != [] {
      assert (a + b)[1..] == a[1..] + b;
      RemoveAppend(a[1..], b, name);
    } else {
      assert a + b == b;
    }
  }

  /** Opening a closed folder and closing it again restores the list exactly. */
  lemma ToggleTwiceAbsent(expanded: seq<string>, name: string)
    requires name !in expanded
    ensures Toggle(Toggle(expanded, name), name) == expanded
  {
    RemoveAppend(expanded, [name], name);
    RemoveAbsent(expanded, name);
    assert Remove([name], name) == [];
  }

  /** Closing an open folder and opening it again moves its name to the end. */
  lemma ToggleTwicePresent(expanded: seq<string>, name: string)
    requires name in expanded
    ensures Toggle(Toggle(expanded, name), name) == Remove(expanded, name) + [name]
  {
    RemoveMembership(expanded, name, name);
  }

  /** Initially the fitness folder is open and the books and youtube folders are closed. */
  lemma InitialFolders()
    ensures IsExpanded(InitialExpanded, "fitness")
    ensures !IsExpanded(InitialExpanded, "books") && !IsExpanded(InitialExpanded, "youtube")
    ensures NoDuplicates(InitialExpanded)
  {
    assert InitialExpanded[0] == "fitness";
  }

  // ---------------------------------------------------------------------
  // File icons

  /** The file icons: memo, page, open book, clipboard and link. */
  datatype Icon = Memo | Page | Book | Clipboard | Link

  predicate EndsWith(s: string, suffix: string)
  {
    |suffix| <= |s| && s[|s| - |suffix|..] == suffix
  }

  /** The first suffix that matches picks the icon; a page is the default. */
  function IconOf(fileName: string): (icon: Icon)
    ensures icon == Memo ==> EndsWith(fileName, ".md")
    ensures icon == Book ==> EndsWith(fileName, ".epub")
    ensures icon == Clipboard ==> EndsWith(fileName, ".log")
    ensures icon == Link ==> EndsWith(fileName, ".url")
  {
    if EndsWith(fileName, ".md") then Memo
    else if EndsWith(fileName, ".pdf") then Page
    else if EndsWith(fileName, ".epub") then Book
    else if EndsWith(fileName, ".log") then Clipboard
    else if EndsWith(fileName, ".url") then Link
    else Page
  }

  /** The dot of a suffix sits at a different distance from the end for suffixes of different lengths,
      and suffixes of equal length differ in their letters, so at most one suffix matches any name. */
  lemma SuffixesExclusive(s: string)
    ensures EndsWith(s, ".md") ==> !EndsWith(s, ".pdf") && !EndsWith(s, ".epub") && !EndsWith(s, ".log") && !EndsWith(s, ".url")
    ensures EndsWith(s, ".pdf") ==> !EndsWith(s, ".epub") && !EndsWith(s, ".log") && !EndsWith(s, ".url")
    ensures EndsWith(s, ".epub") ==> !EndsWith(s, ".log") && !EndsWith(s, ".url")
    ensures EndsWith(s, ".log") ==> !EndsWith(s, ".url")
  {
    if EndsWith(s, ".md") {
      SuffixChars(s, ".md");
    }
    if EndsWith(s, ".pdf") {
      SuffixChars(s, ".pdf");
    }
    if EndsWith(s, ".epub") {
      SuffixChars(s, ".epub");
    }
    if EndsWith(s, ".log") {
      SuffixChars(s, ".log");
    }
    if EndsWith(s, ".url") {
      SuffixChars(s, ".url");
    }
  }

  /** A name ending with `suffix` has the suffix's characters at the same distances from its end
      (the last, third-last and fourth-last are the ones that tell the icon suffixes apart). */
  lemma SuffixChars(s: string, suffix: string)
    requires EndsWith(s, suffix)
    ensures |suffix| >= 1 ==> s[|s| - 1] == suffix[|suffix| - 1]
    ensures |suffix| >= 3 ==> s[|s| - 3] == suffix[|suffix| - 3]
    ensures |suffix| >= 4 ==> s[|s| - 4] == suffix[|suffix| - 4]
  {
    var tail := s[|s| - |suffix|..];
    if |suffix| >= 1 {
      assert tail[|suffix| - 1] == s[|s| - 1];
    }
    if |suffix| >= 3 {
      assert tail[|suffix| - 3] == s[|s| - 3];
    }
    if |suffix| >= 4 {
      assert tail[|suffix| - 4] == s[|s| - 4];
    }
  }

  /** Since the suffixes exclude each other, each icon is chosen exactly for its own suffix
      (the page also for a name that matches none). */
  lemma IconBySuffix(s: string)
    ensures IconOf(s) == Memo <==> EndsWith(s, ".md")
    ensures IconOf(s) == Book <==> EndsWith(s, ".epub")
    ensures IconOf(s) == Clipboard <==> EndsWith(s, ".log")
    ensures IconOf(s) == Link <==> EndsWith(s, ".url")
    ensures IconOf(s) == Page <==>
      EndsWith(s, ".pdf") || !(EndsWith(s, ".md") || EndsWith(s, ".epub") || EndsWith(s, ".log") || EndsWith(s, ".url"))
  {
    SuffixesExclusive(s);
  }
}
