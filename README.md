# Building-overview funnel

A Dafny model of a small multi-step form that describes a building. The user picks a
usage category (apartment, officetel, community facility, commercial facility or retail
facility). For a residential category the form then asks for a building count. For the
other three categories it shows a checklist of facilities, grouped by facility type.
The whole system lives in `src/App.tsx`. The model has three modules:

- `Funnel` (`funnel.dfy`): the `App` component's state (`step`, `category`,
  `buildingCount`) as the class `Wizard`. Also the visibility rules
  (`shouldShowBuildingCountStep`, `shouldShowFacilityStep`), the effect that derives
  the step when the category changes, what each panel renders, and the user's events.
  A pure transition function `Apply` specifies each handler method. On top of it the
  model proves that the states satisfying `Consistent` are exactly the states the user
  can reach.
- `Catalog` (`catalog.dfy`): the static `FACILITY_ITEMS` catalog and
  `getFacilitiesByCategory`. The grouping is a loop (the `reduce`) proved equal to a
  fold of one reduce step. Lemmas then show what the fold means: the keys are the
  categories in order of first occurrence, each key holds exactly its category's
  entries in catalog order, and the group sizes sum to the catalog size.
- `FacilitySelection` (`selection.dfy`): the `selectedFacilities` state of
  `FacilityChecker` as a class, and the checkbox toggle. The toggle removes a checked
  facility by id or appends an unchecked one. The module proves the toggle-twice law
  and its limits.

Behaviour of the code worth noting:

- The toggle tests membership with `includes` on the facility value and only then
  filters by id. It does not test membership by id alone. For catalog entries the two
  tests agree (`CatalogCheckedById`). For lists that hold two records with the same id
  they differ (`ToggleTwiceDropsSameId`).
- The building count is not checked to be positive. Whatever count is submitted is
  stored.
- Submitting the building count always sets the step to the facility step. For a
  residential category that panel is not rendered, so afterwards no panel is expanded
  (`SubmitLeavesNoPanelOpen`).
- The collapsed facility panel has no click handler, so the facility step can only be
  reached through the category effect or through submitting a count.
- The category select has no option for the empty value. Before a category is chosen
  it shows its first option, apartment, and picking that option reports no change. So
  apartment cannot be the first pick. It is reached by picking another category,
  re-opening the selector and then picking apartment (`ApartmentNotFirstPick`).

## Model

| member | source | states |
|---|---|---|
| `Funnel.ShowsBuildingCountStep` | src/App.tsx:40-43 | the building-count panel is only rendered once a category is selected |
| `Funnel.ShowsFacilityStep` | src/App.tsx:45-48 | the facility panel is rendered exactly when a category is selected and the building-count panel is not, so the two are never rendered together and one of them always is once a category is chosen |
| `Funnel.DeriveStep` | src/App.tsx:26-38 | the derived step is the category step exactly for no category, the building-count step exactly when that panel is rendered, and the facility step exactly when the facility panel is rendered |
| `Funnel.DeriveStepTable` | src/App.tsx:26-47 | the derived step for each of the six inputs (unset and the five categories) |
| `Funnel.Initial` | src/App.tsx:22-24 | at mount no category is chosen and only the category selector is on screen, expanded |
| `Funnel.OptionalPanel` | src/App.tsx:74-75 | an optional panel is absent exactly when it is not to be rendered, and expanded exactly when it is rendered and open; the same early returns are those of `BuildingCountSelector` at src/App.tsx:132-133 |
| `Funnel.Render` | src/App.tsx:54-65 | the category selector is always on screen; the two optional panels are never both on screen, and one of them is once a category is chosen |
| `Funnel.DisplayedOption` | src/App.tsx:162-172 | the select shows the chosen category, or its first option, apartment, while no category is chosen |
| `Funnel.Enabled` | src/App.tsx:54-65 | the select reports only a category other than the one it shows, so never the current category and never apartment as the first pick; the building-count summary and button exist only for a residential category; the category summary exists only once a category is chosen |
| `Funnel.Apply` | src/App.tsx:54-63 | only choosing a category changes the category, and then the step is re-derived for the new category; only submitting changes the building count |
| `Funnel.SubmitAdvancesUnconditionally` | src/App.tsx:60-63 | submitting stores exactly the submitted count and moves to the facility step whatever the category, leaving the category unchanged |
| `Funnel.ApplyKeepsConsistent` | src/App.tsx:22-63 | every event the screen offers keeps the state consistent: no category implies the initial step and count, and the building-count step is only active for a residential category |
| `Funnel.AtMostOnePanelOpen` | src/App.tsx:54-65 | in a consistent state at most one panel is expanded |
| `Funnel.ChoosingCategoryOpensItsStep` | src/App.tsx:26-48 | choosing a different category collapses the selector and expands exactly the building-count panel for a residential category or the facility panel otherwise |
| `Funnel.SubmitLeavesNoPanelOpen` | src/App.tsx:60-65 | after submitting a building count the count panel is collapsed, the facility panel is absent and nothing is expanded |
| `Funnel.RunKeepsConsistent` | src/App.tsx:22-63 | any sequence of offered events from a consistent state ends in a consistent state |
| `Funnel.ReachableIffConsistent` | src/App.tsx:22-63 | a state is reachable from the initial state through offered events if and only if it is consistent |
| `Funnel.ApartmentNotFirstPick` | src/App.tsx:157-172 | picking apartment first is not allowed, and picking officetel, re-opening the selector and picking apartment is allowed and opens the building-count step with the default count |
| `Funnel.ApartmentScenario` | src/App.tsx:54-63 | reaching apartment through officetel and submitting 3 is allowed and ends in the facility step with count 3 |
| `Funnel.SwitchCategoryScenario` | src/App.tsx:26-38 | switching from officetel to a community facility is not allowed without first clicking the category summary; with that click it is allowed, hides the count panel, opens the facility panel and keeps the default count |
| `Funnel.Wizard.constructor` | src/App.tsx:22-24 | the initial state is the category step, no category, one building |
| `Funnel.Wizard.OpenCategoryStep` | src/App.tsx:54-54 | clicking the category summary re-opens the category step and changes nothing else; consistency is kept when the click was offered |
| `Funnel.Wizard.SelectCategory` | src/App.tsx:23-38 | choosing a category stores it and re-derives the step when it differs from the current one, otherwise nothing changes; consistency is kept for every choice, offered or not |
| `Funnel.Wizard.OpenBuildingCountStep` | src/App.tsx:56-56 | clicking the building-count summary re-opens that step and changes nothing else; consistency is kept when the click is offered |
| `Funnel.Wizard.SubmitBuildingCount` | src/App.tsx:60-63 | submitting stores the count and sets the facility step; consistency is kept when the button is offered |
| `Catalog.FacilityItems` | src/App.tsx:192-295 | the 17 catalog records in definition order, each with its id, name and group |
| `Catalog.CatalogIdsUnique` | src/App.tsx:192-295 | no two catalog entries share an id, because each entry is stored under its own key |
| `Catalog.CatalogEntryById` | src/App.tsx:192-295 | two catalog entries with the same id are the same entry |
| `Catalog.FirstAppearances` | src/App.tsx:299-309 | the object's keys are exactly the categories that occur in the catalog, each once |
| `Catalog.InCategory` | src/App.tsx:299-309 | a category's array holds exactly the entries of that category and is no longer than the catalog |
| `Catalog.AddFacility` | src/App.tsx:299-308 | one reduce step appends a new category to the keys, pushes the entry onto its category's array (created empty if new) and leaves every other key and array unchanged |
| `Catalog.Grouped` | src/App.tsx:298-310 | the reduce's keys are exactly the categories in its key order, each once, and there are no more keys than entries |
| `Catalog.GetFacilitiesByCategory` | src/App.tsx:298-310 | the loop over the entries returns the result of the reduce |
| `Catalog.FirstAppearancesInOrder` | src/App.tsx:299-309 | of two keys, the earlier one has an entry that comes before every entry of the later one, so the keys are in order of first occurrence |
| `Catalog.GroupedByCategory` | src/App.tsx:298-310 | the reduce's keys are the categories in order of first occurrence, and each key holds exactly the entries of its category in catalog order |
| `Catalog.GroupsPartitionItems` | src/App.tsx:298-310 | every entry is in the group of its own category, and every group holds only entries of its category |
| `Catalog.InCategoryConcat` | src/App.tsx:299-309 | grouping a concatenation concatenates the groups, so earlier entries come first |
| `Catalog.InCategoryKeepsOrder` | src/App.tsx:299-309 | two entries of the same category keep their catalog order in that category's filtered list |
| `Catalog.GroupKeepsCatalogOrder` | src/App.tsx:299-309 | two entries of the same category appear in their group in the order they have in the catalog |
| `Catalog.GroupSizesSum` | src/App.tsx:298-310 | the group sizes add up to the number of entries |
| `FacilitySelection.WithoutId` | src/App.tsx:99-99 | the filter keeps exactly the entries whose id differs, never grows the list, and removes something exactly when some entry has that id |
| `FacilitySelection.WithoutIdConcat` | src/App.tsx:99-99 | filtering a concatenation concatenates the filtered parts |
| `FacilitySelection.WithoutAbsentId` | src/App.tsx:99-99 | a list with no entry of that id is left unchanged by the filter |
| `FacilitySelection.WithoutIdKeepsOrder` | src/App.tsx:99-99 | two kept entries keep their relative order |
| `FacilitySelection.WithoutIdKeepsUniqueIds` | src/App.tsx:99-99 | filtering keeps ids unique |
| `FacilitySelection.Toggle` | src/App.tsx:97-103 | the toggled facility's membership flips and entries of other ids are unaffected; a checked facility is removed with every entry of its id, an unchecked one is appended after an unchanged prefix |
| `FacilitySelection.ToggleTwiceRestores` | src/App.tsx:97-103 | toggling a facility whose id is absent twice in a row returns the original list |
| `FacilitySelection.ToggleTwiceKeepsMembership` | src/App.tsx:97-103 | in a list without repeated ids, toggling a checked facility twice keeps exactly the same entries and moves that facility to the end |
| `FacilitySelection.ToggleTwiceDropsSameId` | src/App.tsx:89-103 | if a different record with the same id is in the list, toggling twice does not return the list |
| `FacilitySelection.CatalogCheckedById` | src/App.tsx:89-89 | for catalog entries, being in the list by value is the same as an entry with the same id being in the list |
| `FacilitySelection.FacilityChecker.constructor` | src/App.tsx:72-72 | the selection starts empty and valid |
| `FacilitySelection.FacilityChecker.OnChange` | src/App.tsx:97-103 | the new selection is the toggle of the old one; for a catalog facility the `includes` test agrees with membership by id, and the selection keeps holding only catalog entries with unique ids |

## Left out

- Rendering: JSX, class names, labels, the display names of the categories, the facility descriptions and the `console.log` of the grouping. They are presentation only. `FacilityInfo` keeps `id`, `name` and `category`.
- React scheduling: the category effect is applied synchronously, as part of the category event, and only when the category value changed. The local `count` of `BuildingCountSelector`, its input field and the `Number(...)` parsing are not modelled. The submitted count is the parameter of the submit event, an unbounded integer.
- Object identity: `includes` compares facility objects by reference. The model compares by value. The records come from the one catalog object, so the two agree for catalog entries.
- Which DOM events fire: a `select` reports a change only when the picked option differs from the one it shows. `Enabled` offers only such picks. `Apply` still treats re-choosing the current category as a no-op, as the effect's dependency list does.
- `FacilityChecker` is modelled separately from `Wizard`. Its toggle is not tied to the facility panel being open, and its state is not reset with the wizard.
- `getFacilitiesByCategory` takes the catalog's values as a parameter instead of reading the constant. The object it returns is modelled as its key order plus a map from key to array.
- The six groups of the shipped catalog are not computed. Their order (parking, mechanical equipment, electrical and telecom, resident amenities, management, other) follows from the first-occurrence order proved for any list of entries (`GroupedByCategory`, `FirstAppearancesInOrder`), applied to `FacilityItems`.
