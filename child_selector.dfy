/**
 * The child selector: a select over the active children, or a prompt to add a child when
 * there is none.
 */
module ChildSelector {
  import opened Wrappers
  import opened Text
  import opened Lists
  import opened RecordTypes

  predicate IsActive(c: Child) {
    c.isActive
  }

  /** `children.filter(child => child.is_active)`. */
  function ActiveChildren(children: seq<Child>): seq<Child> {
    Filter(children, IsActive)
  }

  /** What is rendered: the add-child prompt, or the select with its value and its options. */
  datatype View =
    | AddChildPrompt
    | Selector(value: Option<string>, options: seq<Child>)

  /** The value is the selected id, or `undefined` when the selection is `null` or empty. */
  function ViewOf(children: seq<Child>, selectedChildId: Option<string>): View {
    var active := ActiveChildren(children);
    if |active| == 0 then AddChildPrompt
    else Selector(if Truthy(selectedChildId) then selectedChildId else None, active)
  }

  /**
   * The prompt replaces the select iff no child is active. The select offers exactly the
   * active children, each as often as in the input, and shows the selection when there
   * is one.
   */
  lemma ViewMeaning(children: seq<Child>, selectedChildId: Option<string>)
    ensures ViewOf(children, selectedChildId).AddChildPrompt? <==> forall c :: c in children ==> !c.isActive
    ensures ViewOf(children, selectedChildId).Selector? ==>
      (forall c :: c in ViewOf(children, selectedChildId).options <==> c in children && c.isActive)
    ensures ViewOf(children, selectedChildId).Selector? ==>
      forall c :: multiset(ViewOf(children, selectedChildId).options)[c] == if c.isActive then multiset(children)[c] else 0
    ensures ViewOf(children, selectedChildId).Selector? && Truthy(selectedChildId) ==>
      ViewOf(children, selectedChildId).value == selectedChildId
    ensures ViewOf(children, selectedChildId).Selector? && !Truthy(selectedChildId) ==>
      ViewOf(children, selectedChildId).value.None?
  {
    var active := ActiveChildren(children);
    if |active| > 0 {
      assert active[0] in active;
    }
    forall c ensures multiset(active)[c] == if c.isActive then multiset(children)[c] else 0 {
      FilterCount(children, IsActive, c);
    }
  }

  /** The options keep the input order: the active children of a list split at any point are those of each part, in turn. */
  lemma OptionsKeepOrder(a: seq<Child>, b: seq<Child>)
    ensures ActiveChildren(a + b) == ActiveChildren(a) + ActiveChildren(b)
  {
    FilterAppend(a, b, IsActive);
  }

  /** An inactive child added anywhere changes nothing in the options. */
  lemma InactiveNeverListed(a: seq<Child>, c: Child, b: seq<Child>)
    requires !c.isActive
    ensures ActiveChildren(a + [c] + b) == ActiveChildren(a + b)
  {
    OptionsKeepOrder(a + [c], b);
    OptionsKeepOrder(a, [c]);
    OptionsKeepOrder(a, b);
    assert ActiveChildren([c]) == [] by {
      assert [c][1..] == [];
    }
  }
}
