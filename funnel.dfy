/** The building-overview funnel held by `App`: the usage category, the step that is
    currently expanded, the building count, which optional steps exist for a category,
    and how the user's clicks and submissions move between the steps. */
module Funnel {

  /** The usage category of the building. */
  datatype Category = Apartment | OfficeTel | CommunityFacility | CommercialFacility | RetailFacility

  /** The `category` state: `''` (unselected) until the user picks one of the five categories. */
  datatype Selection = Unselected | Selected(category: Category)

  /** The active step.  After submitting for a residential category it names the
      facility panel, which is not rendered, so then no panel is expanded. */
  datatype FunnelStep = CategoryStep | BuildingCountStep | FacilityCheckStep

  /** `shouldShowBuildingCountStep`: the building-count panel exists at all only for
      residential categories. */
  function ShowsBuildingCountStep(sel: Selection): (shown: bool)
    ensures shown ==> sel.Selected?
  {
    match sel
    case Unselected => false
    case Selected(c) => c == Apartment || c == OfficeTel
  }

  /** `shouldShowFacilityStep`: the facility panel exists at all only for the three
      facility categories.  It is the exact complement of the building-count panel
      among selected categories, so the two optional panels are never both rendered
      and one of them is rendered as soon as a category is chosen. */
  function ShowsFacilityStep(sel: Selection): (shown: bool)
    ensures shown <==> sel.Selected? && !ShowsBuildingCountStep(sel)
  {
    match sel
    case Unselected => false
    case Selected(c) => c == CommunityFacility || c == CommercialFacility || c == RetailFacility
  }

  /** The effect run when `category` changes: the step that becomes active for a
      category.  It is total, and it opens exactly the optional step that is rendered. */
  function DeriveStep(sel: Selection): (step: FunnelStep)
    ensures step == CategoryStep <==> sel.Unselected?
    ensures step == BuildingCountStep <==> ShowsBuildingCountStep(sel)
    ensures step == FacilityCheckStep <==> ShowsFacilityStep(sel)
  {
    if sel.Unselected? then CategoryStep
    else if ShowsBuildingCountStep(sel) then BuildingCountStep
    else FacilityCheckStep
  }

  lemma DeriveStepTable()
    ensures DeriveStep(Unselected) == CategoryStep
    ensures DeriveStep(Selected(Apartment)) == BuildingCountStep
    ensures DeriveStep(Selected(OfficeTel)) == BuildingCountStep
    ensures DeriveStep(Selected(CommunityFacility)) == FacilityCheckStep
    ensures DeriveStep(Selected(CommercialFacility)) == FacilityCheckStep
    ensures DeriveStep(Selected(RetailFacility)) == FacilityCheckStep
  {
  }

  /** The whole state of `App`. */
  datatype WizardState = WizardState(step: FunnelStep, category: Selection, buildingCount: int)

  /** The state at mount: category step, no category, one building.  Only the
      category selector is on screen. */
  function Initial(): (init: WizardState)
    ensures init.category.Unselected?
    ensures Render(init) == Screen(Open, Absent, Absent)
  {
    WizardState(CategoryStep, Unselected, 1)
  }

  /** How a panel shows on screen: not at all, as a one-line summary that can be
      clicked, or expanded with its input. */
  datatype Panel = Absent | Collapsed | Open

  datatype Screen = Screen(categoryPanel: Panel, buildingCountPanel: Panel, facilityPanel: Panel)

  /** What `BuildingCountSelector` and `FacilityChecker` render for their `isRender`
      and `isOpen` props. */
  function OptionalPanel(isRender: bool, isOpen: bool): (p: Panel)
    ensures p == Absent <==> !isRender
    ensures p == Open <==> isRender && isOpen
  {
    if !isRender then Absent else if !isOpen then Collapsed else Open
  }

  /** The three panels for a state.  The category selector is collapsed only when its
      step is not active and a category has been chosen. */
  function Render(s: WizardState): (scr: Screen)
    ensures scr.categoryPanel != Absent
    ensures scr.buildingCountPanel == Absent || scr.facilityPanel == Absent
    ensures s.category.Selected? ==> scr.buildingCountPanel != Absent || scr.facilityPanel != Absent
  {
    Screen(
      if s.step != CategoryStep && s.category.Selected? then Collapsed else Open,
      OptionalPanel(ShowsBuildingCountStep(s.category), s.step == BuildingCountStep),
      OptionalPanel(ShowsFacilityStep(s.category), s.step == FacilityCheckStep))
  }

  function OpenCount(scr: Screen): nat
  {
    (if scr.categoryPanel == Open then 1 else 0)
    + (if scr.buildingCountPanel == Open then 1 else 0)
    + (if scr.facilityPanel == Open then 1 else 0)
  }

  /** The user's actions on the funnel. */
  datatype Event =
    | CategoryStepClicked             // click on the collapsed category summary
    | CategoryChosen(chosen: Category) // pick an option in the category select
    | BuildingCountStepClicked        // click on the collapsed building-count summary
    | BuildingCountSubmitted(count: int) // press the confirm button of the building count

  /** The option the category select shows: the chosen category, or, while the value
      `''` matches no option, the first option (apartment). */
  function DisplayedOption(sel: Selection): (shown: Category)
    ensures sel.Selected? ==> shown == sel.category
    ensures sel.Unselected? ==> shown == Apartment
  {
    match sel
    case Unselected => Apartment
    case Selected(c) => c
  }

  /** An event can only come from an element that is on screen: a summary line is
      clickable when its panel is collapsed, the select and the confirm button exist
      when their panel is open.  The select reports a change only when the picked
      option differs from the one it shows. */
  function Enabled(s: WizardState, e: Event): (enabled: bool)
    ensures enabled && e.CategoryChosen? ==> s.category != Selected(e.chosen)
    ensures e.CategoryChosen? && s.category.Unselected? && e.chosen == Apartment ==> !enabled
    ensures enabled && (e.BuildingCountStepClicked? || e.BuildingCountSubmitted?) ==> ShowsBuildingCountStep(s.category)
    ensures enabled && e.CategoryStepClicked? ==> s.category.Selected?
  {
    var scr := Render(s);
    match e
    case CategoryStepClicked => scr.categoryPanel == Collapsed
    case CategoryChosen(c) => scr.categoryPanel == Open && c != DisplayedOption(s.category)
    case BuildingCountStepClicked => scr.buildingCountPanel == Collapsed
    case BuildingCountSubmitted(_) => scr.buildingCountPanel == Open
  }

  /** The state after an event: the setters the handlers call, followed by the
      category effect when the category actually changed. */
  function Apply(s: WizardState, e: Event): (t: WizardState)
    ensures t.category != s.category ==> e.CategoryChosen? && t.category == Selected(e.chosen)
    ensures t.buildingCount != s.buildingCount ==> e.BuildingCountSubmitted?
    ensures e.CategoryChosen? && t.category != s.category ==> t.step == DeriveStep(t.category)
  {
    match e
    case CategoryStepClicked => s.(step := CategoryStep)
    case CategoryChosen(c) =>
      if s.category == Selected(c) then s
      else s.(category := Selected(c), step := DeriveStep(Selected(c)))
    case BuildingCountStepClicked => s.(step := BuildingCountStep)
    case BuildingCountSubmitted(n) => s.(buildingCount := n, step := FacilityCheckStep)
  }

  /** Submitting stores exactly the submitted count and moves to the facility step
      whatever the category is; the category stays. */
  lemma SubmitAdvancesUnconditionally(s: WizardState, n: int)
    ensures Apply(s, BuildingCountSubmitted(n)).buildingCount == n
    ensures Apply(s, BuildingCountSubmitted(n)).step == FacilityCheckStep
    ensures Apply(s, BuildingCountSubmitted(n)).category == s.category
  {
  }

  /** The states the funnel can be in: before a category is chosen nothing else has
      changed, and the building-count step is only active for a residential category. */
  predicate Consistent(s: WizardState)
  {
    && (s.category.Unselected? ==> s.step == CategoryStep && s.buildingCount == 1)
    && (s.step == BuildingCountStep ==> ShowsBuildingCountStep(s.category))
  }

  lemma ApplyKeepsConsistent(s: WizardState, e: Event)
    requires Consistent(s) && Enabled(s, e)
    ensures Consistent(Apply(s, e))
  {
  }

  /** In a consistent state at most one panel is expanded. */
  lemma AtMostOnePanelOpen(s: WizardState)
    requires Consistent(s)
    ensures OpenCount(Render(s)) <= 1
  {
  }

  /** Choosing a new category collapses the selector and expands exactly the optional
      panel the category renders. */
  lemma ChoosingCategoryOpensItsStep(s: WizardState, c: Category)
    requires s.category != Selected(c)
    ensures Render(Apply(s, CategoryChosen(c))).categoryPanel == Collapsed
    ensures Render(Apply(s, CategoryChosen(c))).buildingCountPanel == Open <==> c in [Apartment, OfficeTel]
    ensures Render(Apply(s, CategoryChosen(c))).facilityPanel == Open <==> c !in [Apartment, OfficeTel]
    ensures OpenCount(Render(Apply(s, CategoryChosen(c)))) == 1
  {
  }

  /** Submitting the building count of a residential category moves to the facility
      step, whose panel is not rendered for that category: afterwards no panel is
      expanded and the facility slot stays empty. */
  lemma SubmitLeavesNoPanelOpen(s: WizardState, n: int)
    requires Enabled(s, BuildingCountSubmitted(n))
    ensures Render(Apply(s, BuildingCountSubmitted(n))).buildingCountPanel == Collapsed
    ensures Render(Apply(s, BuildingCountSubmitted(n))).facilityPanel == Absent
    ensures OpenCount(Render(Apply(s, BuildingCountSubmitted(n)))) == 0
  {
  }

  /** The state after a sequence of events. */
  function Run(s: WizardState, events: seq<Event>): WizardState
    decreases |events|
  {
    if events == [] then s else Run(Apply(s, events[0]), events[1..])
  }

  /** Every event of the sequence is enabled in the state it is applied to. */
  predicate Allowed(s: WizardState, events: seq<Event>)
    decreases |events|
  {
    events == [] || (Enabled(s, events[0]) && Allowed(Apply(s, events[0]), events[1..]))
  }

  ghost predicate Reachable(s: WizardState)
  {
    exists events :: Allowed(Initial(), events) && Run(Initial(), events) == s
  }

  lemma {:induction false} RunKeepsConsistent(s: WizardState, events: seq<Event>)
    requires Consistent(s) && Allowed(s, events)
    ensures Consistent(Run(s, events))
    decreases |events|
  {
    if events != [] {
      ApplyKeepsConsistent(s, events[0]);
      RunKeepsConsistent(Apply(s, events[0]), events[1..]);
    }
  }

  lemma {:induction false} RunSnoc(s: WizardState, events: seq<Event>, e: Event)
    ensures Run(s, events + [e]) == Apply(Run(s, events), e)
    ensures Allowed(s, events + [e]) <==> Allowed(s, events) && Enabled(Run(s, events), e)
    decreases |events|
  {
    if events == [] {
      assert events + [e] == [e];
    } else {
      assert (events + [e])[0] == events[0];
      assert (events + [e])[1..] == events[1..] + [e];
      RunSnoc(Apply(s, events[0]), events[1..], e);
    }
  }

  lemma ReachableStep(s: WizardState, e: Event)
    requires Reachable(s) && Enabled(s, e)
    ensures Reachable(Apply(s, e))
  {
    var events :| Allowed(Initial(), events) && Run(Initial(), events) == s;
    RunSnoc(Initial(), events, e);
    assert Allowed(Initial(), events + [e]) && Run(Initial(), events + [e]) == Apply(s, e);
  }

  /** The consistent states are exactly the states the user can reach from the
      initial one through enabled events. */
  lemma ReachableIffConsistent(s: WizardState)
    ensures Reachable(s) <==> Consistent(s)
  {
    if Reachable(s) {
      var events :| Allowed(Initial(), events) && Run(Initial(), events) == s;
      RunKeepsConsistent(Initial(), events);
    }
    if Consistent(s) {
      var init := Initial();
      assert Allowed(init, []) && Run(init, []) == init;
      if s.category.Unselected? {
        assert s == init;
      } else {
        var c := s.category.category;
        var n := s.buildingCount;
        // choose an officetel (the select shows apartment) and submit n
        ReachableStep(init, CategoryChosen(OfficeTel));
        var s1 := Apply(init, CategoryChosen(OfficeTel));
        ReachableStep(s1, BuildingCountSubmitted(n));
        var s2 := Apply(s1, BuildingCountSubmitted(n));
        if c == OfficeTel {
          if s.step == BuildingCountStep {
            ReachableStep(s2, BuildingCountStepClicked);
          } else if s.step == CategoryStep {
            ReachableStep(s2, CategoryStepClicked);
          } else {
            assert s == s2;
          }
        } else {
          // re-open the selector and switch to c, keeping the count
          ReachableStep(s2, CategoryStepClicked);
          var s3 := Apply(s2, CategoryStepClicked);
          ReachableStep(s3, CategoryChosen(c));
          var s4 := Apply(s3, CategoryChosen(c));
          if s.step == CategoryStep {
            ReachableStep(s4, CategoryStepClicked);
          } else if s.step == FacilityCheckStep && c == Apartment {
            ReachableStep(s4, BuildingCountSubmitted(n));
          } else {
            assert s == s4;
          }
        }
      }
    }
  }

  /** Apartment, the option the select shows before anything is chosen, cannot be
      the first pick: picking it reports no change.  It is reached by picking another
      category first and re-opening the selector. */
  lemma ApartmentNotFirstPick()
    ensures !Allowed(Initial(), [CategoryChosen(Apartment)])
    ensures Allowed(Initial(), [CategoryChosen(OfficeTel), CategoryStepClicked, CategoryChosen(Apartment)])
    ensures Run(Initial(), [CategoryChosen(OfficeTel), CategoryStepClicked, CategoryChosen(Apartment)])
            == WizardState(BuildingCountStep, Selected(Apartment), 1)
  {
  }

  /** Reach an apartment through officetel, submit three buildings: the count is
      stored and the facility step is active. */
  lemma ApartmentScenario()
    ensures Allowed(Initial(), [CategoryChosen(OfficeTel), CategoryStepClicked, CategoryChosen(Apartment), BuildingCountSubmitted(3)])
    ensures Run(Initial(), [CategoryChosen(OfficeTel), CategoryStepClicked, CategoryChosen(Apartment), BuildingCountSubmitted(3)])
            == WizardState(FacilityCheckStep, Selected(Apartment), 3)
  {
  }

  /** Choose an officetel, then switch to a community facility before submitting: the
      switch needs the click on the category summary first; afterwards the
      building-count panel is gone, the facility panel is open and the count keeps its
      default. */
  lemma SwitchCategoryScenario()
    ensures !Allowed(Initial(), [CategoryChosen(OfficeTel), CategoryChosen(CommunityFacility)])
    ensures Allowed(Initial(), [CategoryChosen(OfficeTel), CategoryStepClicked, CategoryChosen(CommunityFacility)])
    ensures Render(Run(Initial(), [CategoryChosen(OfficeTel), CategoryStepClicked, CategoryChosen(CommunityFacility)]))
            == Screen(Collapsed, Absent, Open)
    ensures Run(Initial(), [CategoryChosen(OfficeTel), CategoryStepClicked, CategoryChosen(CommunityFacility)]).buildingCount == 1
  {
  }

  /** The `App` component: its three `useState` fields and the handlers that call
      their setters. */
  class Wizard {
    var step: FunnelStep
    var category: Selection
    var buildingCount: int

    function State(): WizardState
      reads this
    {
      WizardState(step, category, buildingCount)
    }

    constructor ()
      ensures State() == Initial()
    {
      step := CategoryStep;
      category := Unselected;
      buildingCount := 1;
    }

    /** `onClick` of the collapsed category summary. */
    method OpenCategoryStep()
      modifies this
      ensures State() == Apply(old(State()), CategoryStepClicked)
      ensures old(Consistent(State()) && Enabled(State(), CategoryStepClicked)) ==> Consistent(State())
    {
      step := CategoryStep;
      if old(Consistent(State()) && Enabled(State(), CategoryStepClicked)) {
        ApplyKeepsConsistent(old(State()), CategoryStepClicked);
      }
    }

    /** `onSelect` (setCategory) followed by the effect on `category`, which only runs
      when the value changed. */
    method SelectCategory(c: Category)
      modifies this
      ensures State() == Apply(old(State()), CategoryChosen(c))
      ensures old(Consistent(State())) ==> Consistent(State())
    {
      if category != Selected(c) {
        category := Selected(c);
        step := DeriveStep(category);
      }
    }

    /** `onClick` of the collapsed building-count summary. */
    method OpenBuildingCountStep()
      modifies this
      ensures State() == Apply(old(State()), BuildingCountStepClicked)
      ensures old(Consistent(State()) && Enabled(State(), BuildingCountStepClicked)) ==> Consistent(State())
    {
      step := BuildingCountStep;
      if old(Consistent(State()) && Enabled(State(), BuildingCountStepClicked)) {
        ApplyKeepsConsistent(old(State()), BuildingCountStepClicked);
      }
    }

    /** `onSubmit` of the building count. */
    method SubmitBuildingCount(count: int)
      modifies this
      ensures State() == Apply(old(State()), BuildingCountSubmitted(count))
      ensures old(Consistent(State()) && Enabled(State(), BuildingCountSubmitted(count))) ==> Consistent(State())
    {
      buildingCount := count;
      step := FacilityCheckStep;
      if old(Consistent(State()) && Enabled(State(), BuildingCountSubmitted(count))) {
        ApplyKeepsConsistent(old(State()), BuildingCountSubmitted(count));
      }
    }
  }
}
