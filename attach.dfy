/** The selection logic of the attach-context dialog: the list of documents and
    snippets chosen as context, which a checkbox click toggles. */
module Attach {
  import opened Seqs

  datatype AttachKind = DocumentKind | SnippetKind

  datatype Attachment = Attachment(kind: AttachKind, id: string, title: string)

  /** `isSelected(type, id)`: `selected.some(a => a.type === type && a.id === id)`. */
  predicate IsSelected(selected: seq<Attachment>, kind: AttachKind, id: string)
    decreases |selected|
  {
    selected != [] && ((selected[0].kind == kind && selected[0].id == id) || IsSelected(selected[1..], kind, id))
  }

  /** `isSelected` holds iff some entry has that kind and id. */
  lemma {:induction false} IsSelectedSpec(selected: seq<Attachment>, kind: AttachKind, id: string)
    ensures IsSelected(selected, kind, id) <==> exists i :: 0 <= i < |selected| && selected[i].kind == kind && selected[i].id == id
    decreases |selected|
  {
    if selected != [] {
      IsSelectedSpec(selected[1..], kind, id);
      assert forall i :: 1 <= i < |selected| ==> selected[i] == selected[1..][i - 1];
      if exists i :: 0 <= i < |selected| && selected[i].kind == kind && selected[i].id == id {
        var i :| 0 <= i < |selected| && selected[i].kind == kind && selected[i].id == id;
        if i > 0 {
          assert selected[1..][i - 1] == selected[i];
        }
      }
    }
  }

  /** The entries that do not stand for `(kind, id)`. */
  function Other(kind: AttachKind, id: string): Attachment -> bool {
    (a: Attachment) => !(a.kind == kind && a.id == id)
  }

  /** `toggle(type, id, title)`: the new selection. */
  function Toggle(selected: seq<Attachment>, kind: AttachKind, id: string, title: string): seq<Attachment> {
    if IsSelected(selected, kind, id) then Filter(selected, Other(kind, id))
    else selected + [Attachment(kind, id, title)]
  }

  /** After a toggle the pair's selection state is the opposite of before. */
  lemma ToggleNegates(selected: seq<Attachment>, kind: AttachKind, id: string, title: string)
    ensures IsSelected(Toggle(selected, kind, id, title), kind, id) == !IsSelected(selected, kind, id)
  {
    var r := Toggle(selected, kind, id, title);
    IsSelectedSpec(selected, kind, id);
    IsSelectedSpec(r, kind, id);
    if !IsSelected(selected, kind, id) {
      assert r[|selected|] == Attachment(kind, id, title);
    }
  }

  /** Toggling an unselected pair appends exactly one entry for it; toggling a
      selected pair removes every entry for it, keeps the rest in order, and
      shortens the list. */
  lemma ToggleSpec(selected: seq<Attachment>, kind: AttachKind, id: string, title: string)
    ensures !IsSelected(selected, kind, id) ==>
              var r := Toggle(selected, kind, id, title);
              |r| == |selected| + 1 && r[..|selected|] == selected && r[|selected|] == Attachment(kind, id, title)
    ensures IsSelected(selected, kind, id) ==>
              var r := Toggle(selected, kind, id, title);
              (forall a :: a in r <==> a in selected && !(a.kind == kind && a.id == id))
              && IsSubsequence(r, selected) && |r| < |selected|
  {
    if IsSelected(selected, kind, id) {
      var drop := (a: Attachment) => a.kind == kind && a.id == id;
      FilterSpec(selected, Other(kind, id));
      FilterSplit(selected, Other(kind, id), drop);
      IsSelectedSpec(selected, kind, id);
      var i :| 0 <= i < |selected| && selected[i].kind == kind && selected[i].id == id;
      FilterSpec(selected, drop);
      assert selected[i] in Filter(selected, drop);
    }
  }

  /** Toggling a pair that was not selected twice gives back the original list. */
  lemma ToggleTwice(selected: seq<Attachment>, kind: AttachKind, id: string, title: string, title2: string)
    requires !IsSelected(selected, kind, id)
    ensures Toggle(Toggle(selected, kind, id, title), kind, id, title2) == selected
  {
    var once := selected + [Attachment(kind, id, title)];
    ToggleNegates(selected, kind, id, title);
    IsSelectedSpec(selected, kind, id);
    FilterConcat(selected, [Attachment(kind, id, title)], Other(kind, id));
    FilterAll(selected, Other(kind, id));
  }

  /** A toggle leaves the number of occurrences of every entry for another pair
      unchanged. */
  lemma ToggleKeepsOthers(selected: seq<Attachment>, kind: AttachKind, id: string, title: string, a: Attachment)
    requires !(a.kind == kind && a.id == id)
    ensures multiset(Toggle(selected, kind, id, title))[a] == multiset(selected)[a]
  {
    if IsSelected(selected, kind, id) {
      FilterKeepsCount(selected, Other(kind, id), a);
    }
  }
}
