/** The home page: which of its two views is shown, and the two-step selection of an attacking
    and a defending unit that opens the damage panel. */
module Page {
  import opened Wrappers
  import opened Types
  import opened Dom
  import opened ArmyLists
  import DamagePanel

  datatype View = Upload | Compare

  /** `damageCalcMode`; `Idle` is the source's `null`. */
  datatype Mode = SelectingAttacker | SelectingDefender | Idle

  /** The damage-calculation part of the page state. */
  datatype Selection = Selection(mode: Mode, attacker: Option<Unit>, defender: Option<Unit>)

  const NoSelection := Selection(Idle, None, None)

  // ---------------------------------------------------------------------------------------
  // Transitions
  // ---------------------------------------------------------------------------------------

  /** `startDamageCalculation` */
  function Start(s: Selection): (r: Selection)
    ensures r.mode == SelectingAttacker && r.attacker.None? && r.defender.None?
  {
    Selection(SelectingAttacker, None, None)
  }

  /** `handleSelectUnitForDamage`: the first pick is the attacker, the second the defender, and
      a pick outside a selection is ignored. */
  function Pick(s: Selection, unit: Unit): (r: Selection)
    ensures s.mode == SelectingAttacker ==> r == Selection(SelectingDefender, Some(unit), s.defender)
    ensures s.mode == SelectingDefender ==> r == Selection(Idle, s.attacker, Some(unit))
    ensures s.mode == Idle ==> r == s
  {
    match s.mode
    case SelectingAttacker => s.(mode := SelectingDefender, attacker := Some(unit))
    case SelectingDefender => s.(mode := Idle, defender := Some(unit))
    case Idle => s
  }

  /** `resetDamageCalculation`, also the panel's close button. */
  function Cancel(s: Selection): (r: Selection)
    ensures r == NoSelection
  {
    NoSelection
  }

  /** The panel is on the page while both units are set. */
  predicate PanelShown(s: Selection) {
    s.attacker.Some? && s.defender.Some?
  }

  /** The view effect, on the length of the list of roster slots (a hole left by uploading into
      slot 1 first counts): an empty list returns to the upload view, a list of length two switches to
      the comparison, and any other length keeps the view. */
  function NextView(view: View, slotCount: nat): (r: View)
    ensures slotCount == 0 ==> r == Upload
    ensures slotCount == 2 ==> r == Compare
    ensures slotCount != 0 && slotCount != 2 ==> r == view
  {
    if slotCount == 0 then Upload
    else if slotCount == 2 then Compare
    else view
  }

  // ---------------------------------------------------------------------------------------
  // Properties of the transitions
  // ---------------------------------------------------------------------------------------

  /** The states the selection can reach: while the attacker is awaited nothing is set, and while
      the defender is awaited only the attacker is. */
  predicate Reachable(s: Selection) {
    (s.mode == SelectingAttacker ==> s.attacker.None? && s.defender.None?)
    && (s.mode == SelectingDefender ==> s.attacker.Some? && s.defender.None?)
  }

  lemma TransitionsKeepReachable(s: Selection, unit: Unit)
    requires Reachable(s)
    ensures Reachable(NoSelection)
    ensures Reachable(Start(s)) && Reachable(Cancel(s)) && Reachable(Pick(s, unit))
  {
  }

  /** In a reachable state the panel is never shown during a selection. */
  lemma PanelOnlyWhenIdle(s: Selection)
    requires Reachable(s) && PanelShown(s)
    ensures s.mode == Idle
  {
  }

  /** Start, then two picks: the first unit attacks, the second defends, the panel shows, and
      further picks change nothing until the next start. */
  lemma StartThenTwoPicks(s: Selection, a: Unit, d: Unit, u: Unit)
    ensures Pick(Pick(Start(s), a), d) == Selection(Idle, Some(a), Some(d))
    ensures PanelShown(Pick(Pick(Start(s), a), d))
    ensures Pick(Pick(Pick(Start(s), a), d), u) == Pick(Pick(Start(s), a), d)
  {
  }

  /** After one pick the panel is still hidden. */
  lemma OnePickHidesPanel(s: Selection, a: Unit)
    ensures !PanelShown(Pick(Start(s), a))
  {
  }

  /** Starting over and cancelling both hide the panel. */
  lemma StartAndCancelHidePanel(s: Selection)
    ensures !PanelShown(Start(s)) && !PanelShown(Cancel(s))
  {
  }

  /** The rendered panel exists exactly while it is shown, with a row per weapon of the
      attacker. */
  lemma ShownPanelRenders(s: Selection)
    requires s.defender.Some? ==> |s.defender.value.unitProfiles| > 0
    ensures DamagePanel.RenderPanel(s.attacker, s.defender).Some? <==> PanelShown(s)
    ensures PanelShown(s) ==>
              |DamagePanel.RenderPanel(s.attacker, s.defender).value.meleeRows| == |s.attacker.value.meleeWeapons|
  {
  }

  /** The view effect is settled after one run: running it again on the same rosters keeps the
      view. */
  lemma NextViewSettles(view: View, slotCount: nat)
    ensures NextView(NextView(view, slotCount), slotCount) == NextView(view, slotCount)
  {
  }

  /** The comparison is shown only once the list of slots had length two at some run of the
      effect. */
  lemma CompareNeedsTwo(view: View, slotCount: nat)
    requires NextView(view, slotCount) == Compare
    ensures slotCount == 2 || (view == Compare && slotCount != 0)
  {
  }

  /** Uploading only into slot 1 leaves a hole at slot 0, yet the list has length two, so the
      comparison opens with a single roster. */
  lemma CompareWithOneRoster(view: View, list: ArmyList)
    ensures |SetSlot([], 1, list)| == 2 && SetSlot([], 1, list)[0].None?
    ensures NextView(view, |SetSlot([], 1, list)|) == Compare
  {
  }

  // ---------------------------------------------------------------------------------------
  // The page component
  // ---------------------------------------------------------------------------------------

  class Home {
    var view: View
    var selection: Selection
    const store: ArmyListStore

    constructor()
      ensures view == Upload && selection == NoSelection
      ensures fresh(store) && store.armyLists == [] && store.highlightedUnitId == None
    {
      view := Upload;
      selection := NoSelection;
      store := new ArmyListStore();
    }

    method StartDamageCalculation()
      modifies this
      ensures selection == Start(old(selection)) && view == old(view)
    {
      selection := Selection(SelectingAttacker, None, None);
    }

    method SelectUnitForDamage(unit: Unit)
      modifies this
      ensures selection == Pick(old(selection), unit) && view == old(view)
    {
      if selection.mode == SelectingAttacker {
        selection := selection.(attacker := Some(unit));
        selection := selection.(mode := SelectingDefender);
      } else if selection.mode == SelectingDefender {
        selection := selection.(defender := Some(unit));
        selection := selection.(mode := Idle);
      }
    }

    method ResetDamageCalculation()
      modifies this
      ensures selection == Cancel(old(selection)) && view == old(view)
    {
      selection := Selection(Idle, None, None);
    }

    /** The view effect, run after the rosters change. */
    method SyncView()
      modifies this
      ensures view == NextView(old(view), |store.armyLists|) && selection == old(selection)
    {
      if |store.armyLists| == 0 {
        view := Upload;
      } else if |store.armyLists| == 2 {
        view := Compare;
      }
    }

    /** An upload through the uploader, followed by the view effect. */
    method UploadArmyList(doc: Option<Document>, name: string, now: nat, index: nat)
      modifies this, store
      ensures AssembleArmyList(doc, name, now).None? ==> store.armyLists == old(store.armyLists)
      ensures AssembleArmyList(doc, name, now).Some? ==>
                store.armyLists == SetSlot(old(store.armyLists), index, AssembleArmyList(doc, name, now).value)
      ensures store.highlightedUnitId == old(store.highlightedUnitId)
      ensures view == NextView(old(view), |store.armyLists|) && selection == old(selection)
    {
      store.Upload(doc, name, now, index);
      SyncView();
    }

    /** `handleReset`: the rosters and the highlight are cleared and the upload view returns; the
        damage selection is left as it was. */
    method HandleReset()
      modifies this, store
      ensures store.armyLists == [] && store.highlightedUnitId == None
      ensures view == Upload && selection == old(selection)
    {
      store.Reset();
      view := Upload;
    }
  }
}
