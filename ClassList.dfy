/**
 * The class list of the labelling tool and the dialog that searches, picks,
 * adds and deletes classes (1_sammeln/collector_pro.py, lines 53-187). The
 * dialog changes the caller's list in place; every change is also saved to
 * `classes.json` and flagged, which the capture loop uses to reload it.
 */
module ClassList {
  import opened Wrappers
  import opened PyText
  import opened PyList
  import opened Sorting

  // --------------------------------------------------------------- search

  /** Line 73: `search_term in cls.lower()`. */
  predicate MatchesSearch(cls: string, term: string) {
    Contains(Lower(cls), term)
  }

  /** Lines 72-75: the classes whose lower-case form contains `term`, in list order. */
  function Matching(classes: seq<string>, term: string): (r: seq<string>)
    ensures |r| <= |classes|
    decreases |classes|
  {
    if classes == [] then []
    else
      var init := classes[..|classes| - 1];
      var last := classes[|classes| - 1];
      Matching(init, term) + (if MatchesSearch(last, term) then [last] else [])
  }

  /** Line 73: the filtered list holds exactly the classes the search finds. */
  lemma {:induction false} MatchingMembers(classes: seq<string>, term: string)
    ensures forall c :: c in Matching(classes, term) <==> c in classes && MatchesSearch(c, term)
    decreases |classes|
  {
    if classes != [] {
      var init := classes[..|classes| - 1];
      var last := classes[|classes| - 1];
      MatchingMembers(init, term);
      assert classes == init + [last];
    }
  }

  /** Filtering two lists one after the other filters each in turn, so the order of the list is kept. */
  lemma {:induction false} MatchingAppend(a: seq<string>, b: seq<string>, term: string)
    ensures Matching(a + b, term) == Matching(a, term) + Matching(b, term)
    decreases |b|
  {
    if b == [] {
      assert a + b == a;
    } else {
      var b' := b[..|b| - 1];
      var last := b[|b| - 1];
      var tail := if MatchesSearch(last, term) then [last] else [];
      MatchingAppend(a, b', term);
      var ab := a + b;
      assert ab[..|ab| - 1] == a + b' && ab[|ab| - 1] == last;
      assert Matching(a, term) + Matching(b', term) + tail == Matching(a, term) + (Matching(b', term) + tail);
    }
  }

  /** An empty search shows the whole list. */
  lemma {:induction false} MatchingEverything(classes: seq<string>)
    ensures Matching(classes, "") == classes
    decreases |classes|
  {
    if classes != [] {
      var init := classes[..|classes| - 1];
      MatchingEverything(init);
      assert StartsWith(Lower(classes[|classes| - 1]), "");
      assert classes == init + [classes[|classes| - 1]];
    }
  }

  /** The search ignores case in the class names: a lower-case term finds the same classes whatever their case. */
  lemma MatchingIgnoresCase(classes: seq<string>, lowered: seq<string>, term: string)
    requires |lowered| == |classes| && forall i | 0 <= i < |classes| :: lowered[i] == Lower(classes[i])
    ensures forall i | 0 <= i < |classes| :: MatchesSearch(classes[i], term) <==> MatchesSearch(lowered[i], term)
  {
    forall i | 0 <= i < |classes| ensures MatchesSearch(classes[i], term) <==> MatchesSearch(lowered[i], term) {
      LowerIdempotent(classes[i]);
    }
  }

  // ------------------------------------------------------ list operations

  /** Lines 88-89: the list after a new class is appended and the list sorted. */
  function WithClass(classes: seq<string>, name: string): (r: seq<string>)
    requires name !in classes
    ensures Sorted(r)
    ensures multiset(r) == multiset(classes) + multiset{name}
    ensures forall c :: c in r <==> c in classes || c == name
    ensures NoDuplicates(classes) ==> NoDuplicates(r)
  {
    var r := Sort(classes + [name]);
    assert forall c :: c in r <==> c in multiset(classes + [name]);
    AddedOnce(classes, name, r);
    r
  }

  /** Sorting a list without repetitions and with one new name added leaves it without repetitions. */
  lemma AddedOnce(classes: seq<string>, name: string, r: seq<string>)
    requires name !in classes && multiset(r) == multiset(classes + [name])
    ensures NoDuplicates(classes) ==> NoDuplicates(r)
  {
    if NoDuplicates(classes) {
      NoDuplicatesAppend(classes, name);
      NoDuplicatesByMultiset(classes + [name], r);
    }
  }

  /** Appending an element not yet in a list without repetitions keeps it without repetitions. */
  lemma NoDuplicatesAppend(s: seq<string>, x: string)
    requires NoDuplicates(s) && x !in s
    ensures NoDuplicates(s + [x])
  {
    forall i, j | 0 <= i < j < |s + [x]| ensures (s + [x])[i] != (s + [x])[j] {
      if j == |s| {
        assert (s + [x])[i] == s[i];
      } else {
        assert (s + [x])[i] == s[i] && (s + [x])[j] == s[j];
      }
    }
  }

  /** A list without repetitions holds every element once, and so does any list with the same multiset. */
  lemma NoDuplicatesByMultiset(s: seq<string>, t: seq<string>)
    requires NoDuplicates(s) && multiset(s) == multiset(t)
    ensures NoDuplicates(t)
  {
    OnceEach(s);
    forall i, j | 0 <= i < j < |t| ensures t[i] != t[j] {
      TwiceInMultiset(t, i, j);
      assert t[i] in multiset(t);
    }
  }

  /** Every element of a list without repetitions has multiplicity one. */
  lemma {:induction false} OnceEach(s: seq<string>)
    requires NoDuplicates(s)
    ensures forall x | x in multiset(s) :: multiset(s)[x] <= 1
    decreases |s|
  {
    if s != [] {
      var tail := s[1..];
      assert NoDuplicates(tail) by {
        forall i, j | 0 <= i < j < |tail| ensures tail[i] != tail[j] {
          assert tail[i] == s[i + 1] && tail[j] == s[j + 1];
        }
      }
      OnceEach(tail);
      assert s == [s[0]] + tail;
      assert s[0] !in tail by {
        forall k | 0 <= k < |tail| ensures tail[k] != s[0] {
          assert tail[k] == s[k + 1];
        }
      }
      assert multiset(s) == multiset{s[0]} + multiset(tail);
    }
  }

  /** Two positions holding the same element give that element multiplicity at least two. */
  lemma TwiceInMultiset(t: seq<string>, i: nat, j: nat)
    requires i < j < |t|
    ensures t[i] == t[j] ==> multiset(t)[t[i]] >= 2
  {
    assert t == t[..i] + [t[i]] + t[i + 1..j] + [t[j]] + t[j + 1..];
    assert multiset(t) == multiset(t[..i]) + multiset{t[i]} + multiset(t[i + 1..j]) + multiset{t[j]} + multiset(t[j + 1..]);
  }

  /** Line 123: the list after `classes.remove(name)`. */
  function WithoutClass(classes: seq<string>, name: string): (r: seq<string>)
    requires name in classes
    ensures multiset(r) == multiset(classes) - multiset{name}
    ensures exists i | 0 <= i < |classes| :: classes[i] == name && name !in classes[..i] && r == classes[..i] + classes[i + 1..]
    ensures NoDuplicates(classes) ==> name !in r && forall c | c != name :: c in r <==> c in classes
  {
    var r := RemoveFirst(classes, name);
    RemovedEntirely(classes, name, r);
    r
  }

  /** In a list without repetitions, removing one occurrence removes the name altogether. */
  lemma RemovedEntirely(classes: seq<string>, name: string, r: seq<string>)
    requires name in classes && multiset(r) == multiset(classes) - multiset{name}
    ensures NoDuplicates(classes) ==> name !in r && forall c | c != name :: c in r <==> c in classes
  {
    if NoDuplicates(classes) {
      OnceEach(classes);
      assert multiset(classes)[name] == 1;
      assert multiset(r)[name] == 0;
      forall c | c != name ensures c in r <==> c in classes {
        assert multiset(r)[c] == multiset(classes)[c];
      }
    }
  }

  /** Lines 128-129: the selection after `name` was deleted, leaving `remaining`. */
  function SelectionAfterDelete(selected: Option<string>, name: string, remaining: seq<string>): (r: Option<string>)
    ensures selected != Some(name) ==> r == selected
    ensures selected == Some(name) && remaining != [] ==> r == Some(remaining[0])
    ensures selected == Some(name) && remaining == [] ==> r.None?
  {
    if selected == Some(name) then
      if remaining != [] then Some(remaining[0]) else None
    else selected
  }

  /** Lines 78-81: the row to highlight, that of the current class if the filtered list shows it. */
  function Highlight(filtered: seq<string>, selected: Option<string>): (r: Option<nat>)
    ensures r.Some? ==> selected.Some? && r.value < |filtered| && filtered[r.value] == selected.value
    ensures r.Some? ==> selected.value !in filtered[..r.value]
    ensures r.None? <==> selected.None? || selected.value !in filtered
  {
    if selected.Some? then IndexOf(filtered, selected.value) else None
  }

  // --------------------------------------------------------------- dialog

  datatype AddOutcome = Added(name: string) | AlreadyPresent | Ignored
  datatype DeleteOutcome = NoSelection | Declined | Deleted(name: string)

  /** Lines 53-187: the state of one run of `select_class_dialog`. */
  class ClassDialog {
    /** The caller's list, shared and changed in place. */
    var classes: seq<string>
    /** `selected_class[0]`. */
    var selected: Option<string>
    /** `classes_modified[0]`. */
    var modified: bool
    /** The text of the search field. */
    var search: string
    /** `filtered_classes`, shown in the list box. */
    var filtered: seq<string>
    /** The highlighted row of the list box, `curselection()` in single selection. */
    var cursor: Option<nat>

    /** The list box shows the classes the search finds, and a highlighted row is one of them. */
    ghost predicate Valid()
      reads this
    {
      && filtered == Matching(classes, Lower(search))
      && (cursor.Some? ==> cursor.value < |filtered|)
    }

    /** Lines 55-56 and 178-179: the dialog opens on the whole list with the current class highlighted. */
    constructor (classes0: seq<string>, current: string)
      ensures Valid()
      ensures classes == classes0 && selected == Some(current) && !modified && search == ""
      ensures filtered == classes0 && cursor == Highlight(classes0, Some(current))
    {
      classes := classes0;
      selected := Some(current);
      modified := false;
      search := "";
      new;
      FilterClasses();
      MatchingEverything(classes0);
    }

    /** Lines 67-81: refill the filtered list by a loop over the classes and highlight the current class. */
    method FilterClasses()
      modifies this
      ensures Valid()
      ensures filtered == Matching(classes, Lower(search))
      ensures cursor == Highlight(filtered, selected)
      ensures classes == old(classes) && selected == old(selected)
      ensures modified == old(modified) && search == old(search)
    {
      var term := Lower(search);
      filtered := [];
      var i := 0;
      while i < |classes|
        invariant 0 <= i <= |classes|
        invariant filtered == Matching(classes[..i], term)
        invariant classes == old(classes) && selected == old(selected)
        invariant modified == old(modified) && search == old(search) && term == Lower(search)
      {
        var cls := classes[i];
        assert classes[..i + 1] == classes[..i] + [cls];
        if MatchesSearch(cls, term) {
          filtered := filtered + [cls];
        }
        i := i + 1;
      }
      assert classes[..i] == classes;
      cursor := Highlight(filtered, selected);
    }

    /** Line 146: typing in the search field refilters the list. */
    method SetSearch(text: string)
      modifies this
      ensures Valid()
      ensures search == text && filtered == Matching(classes, Lower(text))
      ensures cursor == Highlight(filtered, selected)
      ensures classes == old(classes) && selected == old(selected) && modified == old(modified)
    {
      search := text;
      FilterClasses();
    }

    /** A click on row `i` of the list box. */
    method Pick(i: nat)
      requires Valid() && i < |filtered|
      modifies this
      ensures Valid() && cursor == Some(i)
      ensures classes == old(classes) && selected == old(selected) && modified == old(modified)
      ensures search == old(search) && filtered == old(filtered)
    {
      cursor := Some(i);
    }

    /** Lines 58-62: choosing takes the highlighted class; `closes` says whether the dialog is destroyed. */
    method OnSelect() returns (closes: bool)
      requires Valid()
      modifies this
      ensures Valid()
      ensures filtered == old(filtered) && cursor == old(cursor)
      ensures closes == old(cursor).Some?
      ensures selected == if closes then Some(filtered[cursor.value]) else old(selected)
      ensures classes == old(classes) && modified == old(modified) && search == old(search)
    {
      closes := cursor.Some?;
      if closes {
        selected := Some(filtered[cursor.value]);
      }
    }

    /**
     * Lines 83-97: `input` is what the name prompt returns (`None` when it is
     * cancelled). A new name is added, the list sorted, the search cleared
     * and the list refiltered; a name already present only warns.
     */
    method AddClass(input: Option<string>) returns (outcome: AddOutcome)
      requires Valid()
      modifies this
      ensures Valid() && selected == old(selected)
      ensures outcome.Added? <==> input.Some? && Strip(input.value) != "" && Strip(input.value) !in old(classes)
      ensures outcome.AlreadyPresent? <==> input.Some? && input.value != "" && Strip(input.value) in old(classes)
      ensures outcome.Added? ==>
        (&& outcome.name == Strip(input.value)
         && classes == WithClass(old(classes), outcome.name)
         && modified && search == "" && filtered == classes
         && cursor == Highlight(classes, selected))
      ensures !outcome.Added? ==>
        (&& classes == old(classes) && modified == old(modified)
         && search == old(search) && filtered == old(filtered) && cursor == old(cursor))
    {
      outcome := Ignored;
      if input.Some? && input.value != "" {
        var name := Strip(input.value);
        if name != "" && name !in classes {
          classes := WithClass(classes, name);
          modified := true;
          search := "";
          FilterClasses();
          MatchingEverything(classes);
          outcome := Added(name);
        } else if name in classes {
          outcome := AlreadyPresent;
        }
      } else if input.Some? {
        assert Strip(input.value) == "";
      }
    }

    /**
     * Lines 99-132: delete the highlighted class when `confirmed` (the answer
     * to the yes/no question), move the selection off it if it was the
     * current class, and refilter.
     */
    method DeleteClass(confirmed: bool) returns (outcome: DeleteOutcome)
      requires Valid()
      modifies this
      ensures Valid()
      ensures old(cursor).None? ==> outcome == NoSelection
      ensures old(cursor).Some? && !confirmed ==> outcome == Declined
      ensures old(cursor).Some? && confirmed ==> outcome == Deleted(old(filtered)[old(cursor).value])
      ensures outcome.Deleted? ==>
        (&& outcome.name in old(classes)
         && classes == WithoutClass(old(classes), outcome.name)
         && modified
         && selected == SelectionAfterDelete(old(selected), outcome.name, classes)
         && search == old(search)
         && filtered == Matching(classes, Lower(search))
         && cursor == Highlight(filtered, selected))
      ensures !outcome.Deleted? ==>
        (&& classes == old(classes) && selected == old(selected)
         && modified == old(modified) && search == old(search)
         && filtered == old(filtered) && cursor == old(cursor))
    {
      if cursor.None? {
        return NoSelection;
      }
      var name := filtered[cursor.value];
      if !confirmed {
        return Declined;
      }
      assert name in filtered;
      MatchingMembers(classes, Lower(search));
      classes := WithoutClass(classes, name);
      modified := true;
      selected := SelectionAfterDelete(selected, name, classes);
      FilterClasses();
      outcome := Deleted(name);
    }
  }

  // ------------------------------------------------------------- examples

  /** Searching `ba` finds the two classes holding it whatever their case, in list order. */
  lemma SearchExample()
    ensures Matching(["Bauteil_A", "achse", "Balken"], "ba") == ["Bauteil_A", "Balken"]
  {
    var cs := ["Bauteil_A", "achse", "Balken"];
    assert Lower("Bauteil_A")[..2] == "ba";
    assert Lower("Balken")[..2] == "ba";
    assert Lower("achse") == "achse";
    NotContainsWithoutFirstChar("achse", "ba");
    assert cs[..2] == ["Bauteil_A", "achse"] && cs[..2][..1] == ["Bauteil_A"] && cs[..2][..1][..0] == [];
  }
}
