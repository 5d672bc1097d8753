# Task-hierarchy engine of a Gantt planner, in Dafny

This project models the task-hierarchy engine of a Gantt-chart project planner
written in TypeScript and proves properties of the model. A project holds a
flat, ordered list of tasks. Each task may name a parent task by id and may
carry typed dependency links (Finish-Start, Finish-Finish, Start-Start,
Start-Finish) to other tasks. Everything else is derived from that list:

- the dotted display numbers ("1.2.3");
- the depth of a task, its children and its descendants;
- the cost rollup of groups;
- the parents and dependencies a task may be given without creating a cycle;
- where a new task is inserted so that a parent's subtree stays contiguous;
- what a cascading delete removes.

Modules, one per source file (plus `Forest`, the shared lookup and ancestry
vocabulary):

| module | file | form |
|---|---|---|
| `Types` | types/index.ts | datatypes |
| `Forest` | lookups used throughout (`find`, `findIndex`, `filter`) | functions and lemmas |
| `TaskUtils` | lib/taskUtils.ts | functions and lemmas |
| `TaskHelpers` | lib/taskHelpers.tsx | functions, one loop method (`GetTaskDepth`) |
| `SampleData` | lib/sampleData.ts | functions, lemmas, the sample list as a fixture |
| `CascadeDelete` | the recursive filter inside `deleteTask` of store/useAppStore.ts | function, method, lemmas |
| `AppStore` | store/useAppStore.ts | the class `TaskStore` with its fields and methods |
| `TaskFormLogic` | components/forms/hooks/useTaskFormLogic.ts | loop methods proved against filter functions |
| `TaskDialog` | components/forms/TaskDialog.tsx | the `autoStatus` method and the payload |
| `Validations` | lib/validations.ts | validity predicates and a parse/unparse pair |
| `Formatters` | lib/formatters.ts | functions and lemmas |
| `TaskDetailDependencies` | components/tasks/task-details/TaskDetailDependencies.tsx | functions |
| `AppHeader` | components/layout/AppHeader.tsx | functions and lemmas |

Conventions of the model:

- Dates are integer milliseconds since the epoch.
- Costs and completion fractions are exact reals. The code only adds and
  compares them.
- A field that is optional in the source is an `Option`.
- JavaScript truthiness is kept where the code relies on it. `!task.parent`
  treats a parent id of 0 as no parent, so `Forest.HasParent` is
  `parent.Some? && parent.value != 0`.
- None of the source's upward walks guards against a cycle of parents. The
  model states acyclicity (`Forest.Acyclic`) as a precondition of every walk.
  `Forest.WellFormed` adds unique, positive ids. Without them the rollup and
  the subtree characterisation of a delete do not hold.

On these points the model follows the code:

- A milestone child adds its stored cost to its group's rollup. It is not
  counted as 0.
- The store's `addTask` and `updateTask` check nothing. Dates and cycles are
  checked only by the form schema (`Validations`) and the form filters
  (`TaskFormLogic`).
- The store's `updateTask` does not re-derive the status. The dialog does
  that before sending (`TaskDialog`).
- A new child goes right after the unbroken run of the parent's descendants
  that follows the parent. This is not necessarily after the parent's last
  descendant anywhere in the list.

## Model

| member | source | states |
|---|---|---|
| Forest.Find | lib/taskUtils.ts:4 | The record found has the id asked for; nothing is found exactly when no record has that id |
| Forest.FindIndex | store/useAppStore.ts:141-143 | The index found holds the id and no earlier index does; no index exactly when the id is absent |
| Forest.FindAtFindIndex | lib/taskUtils.ts:4 | `find` and `findIndex` agree: the record found is the one at the first matching index |
| Forest.Filter | lib/taskUtils.ts:26 | A record is kept exactly when it is in the list and passes the test |
| Forest.FilterAppend | lib/taskUtils.ts:26 | Filtering keeps input order: filtering a concatenation concatenates the filtered parts |
| Forest.FilterOut | store/useAppStore.ts:211 | A record survives exactly when its id is not among the dropped ids |
| Forest.FilterOutTwice | store/useAppStore.ts:211-214 | Dropping one id set and then another equals dropping their union at once |
| Forest.WellFormedFilterOut | store/useAppStore.ts:211 | Removing records keeps ids unique and positive and the parent relation acyclic |
| Forest.Ancestors | lib/taskHelpers.tsx:121-126 | The upward walk of ids is empty exactly for a task with no truthy parent |
| TaskUtils.NatToStringRoundTrip | lib/taskUtils.ts:11 | `toString` of a position reads back as the same number |
| TaskUtils.NatToStringInjective | lib/taskUtils.ts:11 | Different positions print differently |
| TaskUtils.TopLevel | lib/taskUtils.ts:9 | Exactly the records with no truthy parent |
| TaskUtils.Children | lib/taskUtils.ts:25-27 | `getChildren`: exactly the records whose parent is the id |
| TaskUtils.ChildrenAppend | lib/taskUtils.ts:25-27 | `getChildren` keeps list order: the children of a concatenation are the concatenated children |
| TaskUtils.HasChildren | lib/taskUtils.ts:21-23 | `hasChildren` holds exactly when some record has the id as parent |
| TaskUtils.HasChildrenIffChildren | lib/taskUtils.ts:21-27 | `hasChildren` holds exactly when `getChildren` is non-empty |
| TaskUtils.TaskNumber | lib/taskUtils.ts:3-5 | `getTaskNumber` is empty exactly when no record has the id |
| TaskUtils.TopLevelNumber | lib/taskUtils.ts:8-12 | A parentless task is numbered by its 1-based position among the parentless tasks before it |
| TaskUtils.ChildNumber | lib/taskUtils.ts:15-18 | A child is numbered as its parent's number, a dot and its 1-based position among the earlier siblings |
| TaskUtils.OrphanNumber | lib/taskUtils.ts:15-18 | A child whose parent is missing is numbered "." followed by its sibling position |
| TaskUtils.NumberDots | lib/taskUtils.ts:3-19 | A number holds as many dots as the task has ancestors on its walk |
| TaskUtils.DescendantIffAncestor | lib/taskUtils.ts:47-59 | For a truthy id, `isDescendantOf` holds exactly when the id is met on the upward walk |
| TaskUtils.IsDescendantOf | lib/taskUtils.ts:47-59 | True when the parent is the id; a descendant always has a parent, a truthy one unless the id is 0 |
| TaskUtils.DescendantTransitive | lib/taskUtils.ts:52-58 | A descendant of a descendant of `a` is a descendant of `a` |
| TaskUtils.GrandchildIsDescendant | lib/taskUtils.ts:52-58 | If B's parent is A, C's parent is B and B is in the list, then C is a descendant of A |
| TaskUtils.DescendantLevel | lib/taskUtils.ts:52-58 | A present ancestor sits strictly higher than its descendant |
| TaskUtils.NoSelfDescent | lib/taskUtils.ts:52-58 | In an acyclic list no task is its own descendant |
| TaskUtils.AncestorsLinear | lib/taskUtils.ts:52-58 | Two different ancestors of one task are themselves ancestor and descendant |
| TaskUtils.CalculateDuration | lib/taskUtils.ts:29-33 | The duration is the ceiling of the distance in days: the least n with distance at most n days |
| TaskUtils.DurationSymmetric | lib/taskUtils.ts:30 | Swapping start and end gives the same duration |
| TaskUtils.DurationUnique | lib/taskUtils.ts:31 | Any n bracketing the distance like a ceiling is the duration |
| TaskHelpers.PriorityVariant | lib/taskHelpers.tsx:18-32 | "outline" exactly for low or no priority, "secondary" exactly for medium, "default" exactly for high, "destructive" exactly for critical |
| TaskHelpers.StatusLabel | lib/taskHelpers.tsx:71-83 | "Pending" exactly for pending or no status; "In Progress", "Completed" and "Blocked" each exactly for their status |
| TaskHelpers.PriorityLabel | lib/taskHelpers.tsx:85-97 | "Low" exactly for low or no priority; "Medium", "High" and "Critical" each exactly for their priority |
| TaskHelpers.StatusLabelDistinct | lib/taskHelpers.tsx:71-83 | Two statuses share a label exactly when they are the same once a missing status counts as pending |
| TaskHelpers.PriorityLabelDistinct | lib/taskHelpers.tsx:18-32 | The same for priority labels and priority variants, a missing priority counting as low |
| TaskHelpers.StatusBadgeVariant | lib/taskHelpers.tsx:99-115 | "default" exactly for in-progress, "outline" for completed, "destructive" for blocked |
| TaskHelpers.BadgeOfStatus | lib/taskHelpers.tsx:105-113 | Of the four statuses, only pending gets "secondary" |
| TaskHelpers.IsTaskOverdue | lib/taskHelpers.tsx:66-69 | Never overdue when completed; otherwise overdue exactly when the end precedes the given instant |
| TaskHelpers.OverdueStays | lib/taskHelpers.tsx:66-69 | An overdue task stays overdue as the clock moves on |
| TaskHelpers.CompletedNeverOverdue | lib/taskHelpers.tsx:67 | A completed task is never overdue, whatever its end date |
| TaskHelpers.GetTaskDepth | lib/taskHelpers.tsx:117-129 | The loop counts every hop of the upward walk, the last one included when the parent is missing |
| TaskHelpers.DepthOfRoot | lib/taskHelpers.tsx:118-121 | A task with no truthy parent has depth 0 |
| TaskHelpers.DepthOfChild | lib/taskHelpers.tsx:121-126 | With the parent present, the depth is the parent's depth plus one |
| TaskHelpers.DepthOfOrphan | lib/taskHelpers.tsx:122-124 | With the parent id missing from the list, the depth is 1 |
| SampleData.GroupCostNoChildren | lib/sampleData.ts:368-369 | An id that no record names as parent rolls up to 0 |
| SampleData.GroupCost | lib/sampleData.ts:367-375 | `calculateGroupCost`: with no children the rollup is 0; the sum over children is given by the lemmas around it |
| SampleData.GroupCostNonNegative | lib/sampleData.ts:367-375 | With no negative stored costs outside groups, no rollup is negative |
| SampleData.ContributionNonNegative | lib/sampleData.ts:370-373 | Each child adds a non-negative amount under the same condition |
| SampleData.SumCostsAtLeast | lib/sampleData.ts:369-374 | Under the same condition the sum over the children is at least any one child's contribution |
| SampleData.ChildAtMostParent | lib/sampleData.ts:367-375 | A child group's rollup, or a child leaf's stored cost, never exceeds its parent's rollup |
| SampleData.LeafChildrenSum | lib/sampleData.ts:373 | Over children that are not groups, milestones included, the rollup is the plain total of their stored costs |
| SampleData.GroupCostIgnoresGroupCosts | lib/sampleData.ts:370-371 | Changing the stored costs of groups changes no rollup |
| SampleData.WithGroupCost | lib/sampleData.ts:383-390 | A group gets its rollup as cost; any other record comes back unchanged |
| SampleData.WithCalculatedCosts | lib/sampleData.ts:382-392 | Same length, order and ids; non-groups unchanged; each group has its rollup as cost and nothing else changed |
| SampleData.CalculatedCostsIdempotent | lib/sampleData.ts:382-392 | Recomputing the group costs a second time changes nothing |
| SampleData.CalculatedCostsConsistent | lib/sampleData.ts:384-388 | In the output, each group's cost equals the rollup computed on the output itself |
| SampleData.SampleWellFormed | lib/sampleData.ts:6-359 | The sample list has unique positive ids and no parent cycle |
| SampleData.PlanningRollup | lib/sampleData.ts:7-87 | Group 1 of the sample rolls up to 247500000 |
| SampleData.DeploymentRollup | lib/sampleData.ts:278-358 | Group 4 of the sample rolls up to 420000000 |
| SampleData.SampleRollups | lib/sampleData.ts:6-359 | Both fixture rollups hold on the same well-formed sample |
| CascadeDelete.ChildIdsMembers | store/useAppStore.ts:208-210 | The child ids are exactly the ids of the records whose parent is the given id |
| CascadeDelete.Prune | store/useAppStore.ts:204-216 | `removeTaskAndChildren` as a function: the result is shorter than the list or the list itself; what it removes is stated by PruneSubtree and PruneKeeps |
| CascadeDelete.RemoveTaskAndChildren | store/useAppStore.ts:204-216 | The recursive filter computes `Prune`: drop the id, then prune each child id in order from what is left |
| CascadeDelete.PruneSubset | store/useAppStore.ts:204-216 | What survives was in the list, is not the id and is not its child; unique ids stay unique |
| CascadeDelete.PruneEachSubset | store/useAppStore.ts:212-214 | After the `forEach`, no survivor carries any of the child ids |
| CascadeDelete.SubtreeMember | store/useAppStore.ts:204-216 | A record is in the removed set exactly when it is the id or one of its descendants |
| CascadeDelete.PruneSubtree | store/useAppStore.ts:204-216 | On a well-formed list the recursive filter removes exactly the subtree and keeps the order of the rest |
| CascadeDelete.PruneKeeps | store/useAppStore.ts:204-216 | A record survives exactly when it is neither the id nor a descendant of it; the list stays well formed |
| CascadeDelete.PruneLeavesNoChildren | store/useAppStore.ts:208-214 | After the delete, no survivor has the deleted id as parent |
| CascadeDelete.PruneAbsent | store/useAppStore.ts:208-211 | Deleting an id that is neither present nor anyone's parent leaves the list unchanged |
| AppStore.InsertionPoint | store/useAppStore.ts:137-165 | At the end with no parent or a missing parent; otherwise past the parent, over a run of its descendants, stopping before the first record outside the subtree |
| AppStore.InsertionPointUnique | store/useAppStore.ts:145-164 | Only one position after the parent closes its run of descendants |
| AppStore.InsertionIndex | store/useAppStore.ts:137-165 | The `for` loop with its `break` finds exactly that insertion point |
| AppStore.Insert | store/useAppStore.ts:169-173 | The list grows by one with the new task at the index |
| AppStore.InsertKeepsOrder | store/useAppStore.ts:169-173 | Taking the new task out gives back the old list, so the existing order is kept |
| AppStore.InsertUnique | store/useAppStore.ts:169-173 | Inserting a fresh id keeps the ids unique |
| AppStore.Merge | store/useAppStore.ts:192 | `{ ...task, ...updates }`: each field the update names takes the update's value, every other field keeps the record's, and the id stays |
| AppStore.MergeNoChange | store/useAppStore.ts:192 | An update naming no field leaves the record as it was |
| AppStore.MergeIdempotent | store/useAppStore.ts:192 | Applying the same update twice equals applying it once |
| AppStore.Then | store/useAppStore.ts:192 | Combining with an update that names nothing, on either side, gives the other update |
| AppStore.MergeLater | store/useAppStore.ts:192 | Two updates in turn equal one combined update in which the later one wins on every field it names |
| AppStore.UpdateInList | store/useAppStore.ts:191-193 | Same length and ids in the same order; the matching records are merged, every other record unchanged |
| AppStore.UpdateInListIdempotent | store/useAppStore.ts:191-193 | Updating twice with the same fields equals updating once |
| AppStore.UpdateInListAbsent | store/useAppStore.ts:191-193 | An update for an id nobody has leaves the list unchanged |
| AppStore.ProjectsWithout | store/useAppStore.ts:111 | Exactly the projects with a different id survive |
| AppStore.FindProject | store/useAppStore.ts:79 | The project found has the id asked for; none is found exactly when no project has it |
| AppStore.UpdateAllOk | store/useAppStore.ts:189-195 | Updating every list keeps every list's ids unique and drawn from the counter |
| AppStore.PruneAllOk | store/useAppStore.ts:201-222 | Deleting from every list keeps the same invariant |
| AppStore.PruneAllKeeps | store/useAppStore.ts:201-222 | In every well-formed list exactly the id and its descendants go |
| AppStore.UpdateEveryList | store/useAppStore.ts:190-194 | The per-key loop rewrites each project's list by the merge and keeps the key set |
| AppStore.PruneEveryList | store/useAppStore.ts:202-221 | The per-key loop replaces each project's list by its cascaded delete |
| AppStore.CalculatedCostsMember | store/useAppStore.ts:122-123 | Every record of the costed list is some stored record with only a group's cost replaced by its rollup; a non-group is a stored record as is |
| AppStore.Costed | store/useAppStore.ts:122-123 | Same length as the records given, each one in place with only a group's cost replaced by its rollup |
| AppStore.FindCosted | store/useAppStore.ts:122-123 | Looking an id up in the costed records finds exactly when the plain lookup does, and then the costed copy of the record it finds |
| AppStore.ChildrenCosted | store/useAppStore.ts:242-249 | The children of the costed records are the stored children, in the same order, each costed |
| AppStore.TaskStore.constructor | store/useAppStore.ts:69-73 | No projects (the source's initial project list, line 28, is empty), no current project, no task lists, counter at 1000 |
| AppStore.TaskStore.CurrentTasks | store/useAppStore.ts:227-230 | Nothing without a truthy current project id; otherwise its list, or [] when it has none |
| AppStore.TaskStore.SetCurrentProjectId | store/useAppStore.ts:75 | Only the current project id changes |
| AppStore.TaskStore.GetProject | store/useAppStore.ts:78-80 | The project with the id, or none exactly when no project has it |
| AppStore.TaskStore.AddProject | store/useAppStore.ts:82-94 | The project is appended under the given id and gets an empty task list; nothing else changes |
| AppStore.TaskStore.DeleteProject | store/useAppStore.ts:106-115 | The project and its task list go; other projects and lists are untouched |
| AppStore.TaskStore.AddTask | store/useAppStore.ts:126-185 | The new task takes the counter's id, the counter rises by exactly 1, and the task goes in at the insertion point; other lists untouched |
| AppStore.TaskStore.UpdateTask | store/useAppStore.ts:187-197 | Every list is rewritten by the merge; projects, current project and counter unchanged |
| AppStore.TaskStore.DeleteTask | store/useAppStore.ts:199-224 | In every list exactly the id and its descendants are removed; counter and projects unchanged |
| AppStore.TaskStore.GetTask | store/useAppStore.ts:118-124 | Nothing without a current project; otherwise found exactly when the id is present, and then the first stored record with the id, its cost replaced by its rollup when it is a group |
| AppStore.TaskStore.GetTaskNumber | store/useAppStore.ts:226-232 | Empty without a current project or when the id is missing; otherwise the dotted number |
| AppStore.TaskStore.HasChildrenNow | store/useAppStore.ts:234-240 | True exactly when there is a current project and some task in it has the id as parent |
| AppStore.TaskStore.GetChildren | store/useAppStore.ts:242-249 | Nothing without a current project; otherwise the stored children of the id in list order and with their multiplicity, each with a group's cost rolled up |
| TaskFormLogic.FormTasks | components/forms/hooks/useTaskFormLogic.ts:21-25 | Nothing without a current project; otherwise the costed list, same shape and still well formed |
| TaskFormLogic.IsGroupWithChildren | components/forms/hooks/useTaskFormLogic.ts:28-29 | True exactly for an edited group with a truthy id that some task in the current project names as parent |
| TaskFormLogic.DefaultValues | components/forms/hooks/useTaskFormLogic.ts:39-52 | Parent is the given parent id, else the task's; a new task defaults to an empty name, pending, medium, a plain task, cost 0, progress 0 and no links |
| TaskFormLogic.NewTaskFormNeedsName | components/forms/hooks/useTaskFormLogic.ts:40-51 | A new form's defaults are refused by the schema until a name is typed, and then accepted exactly when the default end is not before the start |
| TaskFormLogic.Dependencies | components/forms/hooks/useTaskFormLogic.ts:80-95 | Exactly the tasks that are not the edited task and do not descend from it |
| TaskFormLogic.Parents | components/forms/hooks/useTaskFormLogic.ts:61-77 | Exactly the groups that are not the edited task and do not descend from it |
| TaskFormLogic.ReachesTask | components/forms/hooks/useTaskFormLogic.ts:66-74 | The `while` walk meets the edited id exactly when that id is on the ancestor walk, that is when the candidate descends from it |
| TaskFormLogic.NoZeroAncestor | components/forms/hooks/useTaskFormLogic.ts:68 | The walk never yields id 0, since a falsy parent stops it |
| TaskFormLogic.KeepAsDependency | components/forms/hooks/useTaskFormLogic.ts:81-93 | The dependency test keeps a task exactly when it is eligible |
| TaskFormLogic.KeepAsParent | components/forms/hooks/useTaskFormLogic.ts:62-75 | The parent test keeps a task exactly when it is an eligible group |
| TaskFormLogic.PotentialDependencies | components/forms/hooks/useTaskFormLogic.ts:80-95 | The filter loop returns exactly the eligible tasks, in list order |
| TaskFormLogic.PotentialParents | components/forms/hooks/useTaskFormLogic.ts:61-77 | The filter loop returns exactly the eligible groups, in list order |
| TaskFormLogic.FilterThenFilter | components/forms/hooks/useTaskFormLogic.ts:62-95 | Filtering by a conjunction equals filtering twice in turn |
| TaskFormLogic.ParentsAreGroupDependencies | components/forms/hooks/useTaskFormLogic.ts:61-95 | The potential parents are the potential dependencies that are groups, in the same order |
| TaskFormLogic.NewTaskOffersAll | components/forms/hooks/useTaskFormLogic.ts:61-95 | For a new task every task is a potential dependency and every group a potential parent |
| TaskFormLogic.EditedTaskNotOffered | components/forms/hooks/useTaskFormLogic.ts:64 | The edited task is never offered as its own parent or dependency |
| TaskFormLogic.DependenciesSurviveDelete | components/forms/hooks/useTaskFormLogic.ts:80-95 | The potential dependencies of a task are exactly what deleting it would leave |
| TaskDialog.DerivedStatus | components/forms/TaskDialog.tsx:39-46 | Completed at 1, in progress strictly between 0 and 1, pending at 0 when completed was chosen, the chosen status otherwise |
| TaskDialog.AutoStatus | components/forms/TaskDialog.tsx:39-46 | The `let` and its if/else chain compute the derived status |
| TaskDialog.CompletedIffFull | components/forms/TaskDialog.tsx:39-46 | Within [0, 1], the status is completed exactly when progress is 1, and in progress exactly when progress is inside the interval or it is 0 and in progress was chosen |
| TaskDialog.DerivedStatusIdempotent | components/forms/TaskDialog.tsx:39-46 | Deriving again from the derived status changes nothing |
| TaskDialog.ZeroProgressKeepsBlocked | components/forms/TaskDialog.tsx:39 | At progress 0, blocked and in progress are kept as chosen |
| TaskDialog.PayloadForm | components/forms/TaskDialog.tsx:73-85 | The payload read back as form data keeps type, cost, progress and links |
| TaskDialog.BuildPayload | components/forms/TaskDialog.tsx:50-87 | Derived status; a milestone's cost is 0; missing links become []; other fields copied; valid data stays valid and is sent as completed exactly at full progress |
| Validations.ParseStatus | lib/validations.ts:57 | A status is accepted only under its own spelling |
| Validations.ParsePriority | lib/validations.ts:58 | A priority is accepted only under its own spelling |
| Validations.ParseKind | lib/validations.ts:64 | A type is accepted only under its own spelling |
| Validations.ParseLinkType | lib/validations.ts:8 | A link type is accepted only under its own code |
| Validations.ParseNames | lib/validations.ts:8-64 | Every enumeration value's spelling is accepted as that value |
| Validations.ParseLink | lib/validations.ts:6-9 | A link is accepted exactly when its type is one of the four codes, and keeps target and type |
| Validations.ParseLinks | lib/validations.ts:70 | A link list is accepted exactly when every link is, element by element |
| Validations.ProjectValid | lib/validations.ts:14-34 | A valid project ends no earlier than it starts and has a name |
| Validations.ProjectRefusals | lib/validations.ts:14-34 | End before start or a name that is empty or over 100 characters is refused; dropping the optional description keeps a project valid |
| Validations.ParseTaskForm | lib/validations.ts:41-75 | What is accepted satisfies every bound of the schema and has enumerations and links that parse |
| Validations.ParseUnparse | lib/validations.ts:41-75 | Valid form data, written out and parsed again, comes back unchanged |
| Validations.UnparseParse | lib/validations.ts:41-75 | An accepted raw form, parsed and written out again, comes back unchanged |
| Validations.EndBeforeStartRefused | lib/validations.ts:72-75 | A task ending before it starts is refused |
| Validations.PercentOutOfRangeRefused | lib/validations.ts:66-69 | A progress outside [0, 1] is refused |
| Formatters.UpperChar | lib/formatters.ts:32 | Lower-case ASCII letters go to their capitals; every other character is kept |
| Formatters.Upper | components/layout/AppHeader.tsx:75 | Same length, each character upper-cased in place |
| Formatters.Capitalize | lib/formatters.ts:30-33 | Same length; the first character upper-cased, the rest unchanged; "" stays "" |
| Formatters.CapitalizeIdempotent | lib/formatters.ts:30-33 | Capitalizing twice equals capitalizing once |
| Formatters.CapitalizeAll | lib/formatters.ts:39 | Each part capitalized, the count of parts kept |
| Formatters.TitleCase | lib/formatters.ts:35-41 | `toTitleCase` equals the character-by-character reading: each separator a space, each piece's first character upper-cased, the rest kept |
| Formatters.SplitJoin | lib/formatters.ts:37-40 | Splitting on '-' and '_' and joining with single spaces replaces each separator by one space and changes nothing else |
| Formatters.TitleCaseSpaced | lib/formatters.ts:35-41 | The title case is the input with separators made spaces and each word start capitalized |
| Formatters.TitleCaseShape | lib/formatters.ts:35-41 | The title case has the input's length and no '-' or '_' |
| Formatters.DaysBetween | lib/formatters.ts:43-47 | The result is the floor of the difference in days |
| Formatters.DaysBetweenSame | lib/formatters.ts:43-47 | Equal instants are 0 days apart |
| Formatters.DaysBetweenNegative | lib/formatters.ts:43-47 | An end before the start gives a negative count |
| Formatters.DaysBetweenMonotone | lib/formatters.ts:43-47 | A later end never gives fewer days |
| TaskDetailDependencies.LinkTypeLabel | components/tasks/task-details/TaskDetailDependencies.tsx:18-31 | The four codes get their long names; any other string is shown unchanged |
| TaskDetailDependencies.LabelsDistinct | components/tasks/task-details/TaskDetailDependencies.tsx:19-27 | Different link types get different labels, and no label is a bare code |
| TaskDetailDependencies.Row | components/tasks/task-details/TaskDetailDependencies.tsx:42-66 | The row shows the link's code and label; a name appears exactly when the target is present, and then with its number |
| TaskDetailDependencies.DependencyRows | components/tasks/task-details/TaskDetailDependencies.tsx:16-67 | Nothing for a task without links; otherwise one row per link, in link order |
| TaskDetailDependencies.DanglingRow | components/tasks/task-details/TaskDetailDependencies.tsx:42-57 | A link to a missing task shows an empty number but still its type label |
| AppHeader.Firsts | components/layout/AppHeader.tsx:73-74 | No more characters than words |
| AppHeader.Prefix2 | components/layout/AppHeader.tsx:76 | At most two characters, a prefix of the input, all of it when it is short |
| AppHeader.UserInitials | components/layout/AppHeader.tsx:69-77 | "U" for a missing or empty name; never more than two characters |
| AppHeader.FirstsOfWords | components/layout/AppHeader.tsx:71-74 | The first characters of the space-separated words are the characters that start a word in the name; empty words add nothing |
| AppHeader.InitialsAreWordStarts | components/layout/AppHeader.tsx:71-76 | The initials are the first two upper-cased word starts of the name, in order |
| AppHeader.OneWordOneInitial | components/layout/AppHeader.tsx:71-76 | A name without spaces gives exactly one initial |
| AppHeader.NoWordStartsIffBlank | components/layout/AppHeader.tsx:71-74 | A name has no word starts exactly when it is all spaces |
| AppHeader.BlankNameNoInitials | components/layout/AppHeader.tsx:69-77 | As written, a name made only of spaces passes the "no name" test and gets "" |
| AppHeader.UserInitialsOrDefault | components/layout/AppHeader.tsx:69-77 | Always one or two characters, agreeing with the code whenever the code yields something |
| AppHeader.OrDefaultOnlyForBlank | components/layout/AppHeader.tsx:69-77 | The corrected result differs from the code exactly on all-space names |

## Left out

- `getTaskNumber` of lib/taskHelpers.tsx:131-147 is the same text as the one in lib/taskUtils.ts:3-19. It is modelled once, as `TaskUtils.TaskNumber`, so the two agree on every input by construction.
- `updateProject` (store/useAppStore.ts:96-104) is not modelled. It only spreads the fields into the project and stamps it with the clock.
- Clock readings are left out. The project id from `Date.now()` becomes a parameter of `AddProject`. The creation and update stamps are not modelled. The dates `new Date()` and a week later in the form defaults become parameters of `DefaultValues`. The current time in `isTaskOverdue` becomes a parameter of `IsTaskOverdue`.
- The sample task list appears only as a fixture for the rollup lemmas. It is built from the records' ids, parents, types and costs; their names, dates and other fields are left out.
- SampleData.GroupCost: its own contract states only the rollup of a childless id. The sum over the children is its definition, and what that sum satisfies is stated by GroupCostNonNegative, SumCostsAtLeast, ChildAtMostParent, LeafChildrenSum and GroupCostIgnoresGroupCosts.
- CascadeDelete.Prune: its own contract states only that the list shrinks or stays the same. What it removes is stated by PruneSubset on any list, and by PruneSubtree and PruneKeeps on a well-formed one.
- Validations.ProjectValid: its own contract states only the date refinement and a non-empty name. The length bounds are stated by ProjectRefusals.
- Non-termination on parent cycles is not modelled. Every upward walk requires `Forest.Acyclic`, and the rollup and subtree lemmas require `Forest.WellFormed`.
- AppStore.TaskStore.AddTask: requires the target list to be acyclic when the new task has a parent, because the insertion loop walks ancestors.
- AppStore.TaskStore.GetTask and AppStore.TaskStore.GetChildren: require the current list to be well formed, because they roll up group costs.
- Case mapping covers ASCII letters only. Other characters are unchanged by `UpperChar`.
- String lengths count characters, not UTF-16 code units.
- `daysBetween` and `calculateDuration` work on exact integer milliseconds. Floating-point division is not modelled.
- Zod's parsing of dates from form input is not modelled. The form carries integer dates.
- The error messages of the schemas are not modelled. Only acceptance and refusal are.
- JSX rendering, the toasts and the asynchronous mutation calls of the dialog are left out, as is all persistence and network code.
- The `getTask` and `getTaskNumber` callbacks of TaskDetailDependencies become lookups in a task list.
- Floating-point rounding of `getProgressPercentage` and the colour-class mappings are left out.
- `calculateEndDate` and `calculateStartDate` are left out. Their calendar arithmetic depends on the platform's date library.

## Findings

| source | as written | input that shows it | evidently intended | confidence | as-written member | corrected member |
|---|---|---|---|---|---|---|
| components/layout/AppHeader.tsx:69-77 | `if (!name) return "U"` tests only for a missing or empty name. A name made only of spaces is split into empty words, and each word's `n[0]` is undefined and joins as nothing | name " " gives "" | a header avatar that always shows a letter, "U" when no initial comes out | low, not executed | AppHeader.BlankNameNoInitials | AppHeader.UserInitialsOrDefault |
