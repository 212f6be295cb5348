/** The display lookups of the page: badges, labels and colour classes. */
module Display {
  import opened DashboardTypes

  /** The `variant` values the page passes to badges and buttons. */
  datatype Variant = Default | Secondary | Outline

  /** Badge properties of a task status: a variant and its caption. */
  datatype StatusBadge = StatusBadge(variant: Variant, caption: string)

  /** `getStatusBadge`: the lookup table `variants[status]`. */
  function GetStatusBadge(s: TaskStatus): StatusBadge
  {
    match s
    case Todo => StatusBadge(Secondary, "К выполнению")
    case InProgress => StatusBadge(Default, "В работе")
    case Review => StatusBadge(Outline, "На ревью")
    case Done => StatusBadge(Secondary, "Готово")
  }

  /** The four statuses have four different captions. */
  lemma StatusCaptionsDistinct(a: TaskStatus, b: TaskStatus)
    ensures GetStatusBadge(a).caption == GetStatusBadge(b).caption <==> a == b
  {
  }

  /** Which status gets which badge variant. */
  lemma StatusVariants(s: TaskStatus)
    ensures GetStatusBadge(s).variant == Secondary <==> s == Todo || s == Done
    ensures GetStatusBadge(s).variant == Default <==> s == InProgress
    ensures GetStatusBadge(s).variant == Outline <==> s == Review
  {
  }

  /** `getPriorityColor`: takes any string; anything but 'high' or 'medium' is green. */
  function GetPriorityColor(priority: string): string
  {
    if priority == "high" then "text-red-500"
    else if priority == "medium" then "text-yellow-500"
    else "text-green-500"
  }

  /** The priority caption next to the flag. */
  function PriorityCaption(p: Priority): string
  {
    if p == High then "Высокий"
    else if p == Medium then "Средний"
    else "Низкий"
  }

  /** Colour and caption agree, and each priority gets its own of both. */
  lemma PriorityColorMatchesCaption(p: Priority)
    ensures GetPriorityColor(PriorityKey(p)) == "text-red-500" <==> PriorityCaption(p) == "Высокий"
    ensures GetPriorityColor(PriorityKey(p)) == "text-yellow-500" <==> PriorityCaption(p) == "Средний"
    ensures GetPriorityColor(PriorityKey(p)) == "text-green-500" <==> PriorityCaption(p) == "Низкий"
  {
  }

  lemma PriorityColorsDistinct(a: Priority, b: Priority)
    ensures GetPriorityColor(PriorityKey(a)) == GetPriorityColor(PriorityKey(b)) <==> a == b
  {
  }

  /** Any string other than the two named ones falls through to green. */
  lemma PriorityColorFallback(priority: string)
    ensures GetPriorityColor(priority) == "text-green-500" <==> priority != "high" && priority != "medium"
  {
  }

  /** The project badge variant: only active projects get the default one. */
  function ProjectVariant(s: ProjectStatus): Variant
  {
    if s == Active then Default else Secondary
  }

  /** The project badge caption. */
  function ProjectStatusCaption(s: ProjectStatus): string
  {
    if s == Active then "Активен"
    else if s == Planning then "Планирование"
    else "Завершён"
  }

  lemma ProjectBadges(a: ProjectStatus, b: ProjectStatus)
    ensures ProjectVariant(a) == Default <==> a == Active
    ensures ProjectVariant(a) == Default || ProjectVariant(a) == Secondary
    ensures ProjectStatusCaption(a) == ProjectStatusCaption(b) <==> a == b
  {
  }

  /** The colour class of the presence dot on the avatar. */
  function PresenceDotColor(p: Presence): string
  {
    if p == Online then "bg-green-500" else "bg-gray-400"
  }

  /** The presence caption under a team member. */
  function PresenceCaption(p: Presence): string
  {
    if p == Online then "\U{1F7E2} Онлайн" else "\U{26AB} Офлайн"
  }

  lemma PresenceDisplay(a: Presence, b: Presence)
    ensures PresenceDotColor(a) == PresenceDotColor(b) <==> a == b
    ensures PresenceCaption(a) == PresenceCaption(b) <==> a == b
    ensures PresenceDotColor(a) == "bg-green-500" <==> PresenceCaption(a) == "\U{1F7E2} Онлайн"
  {
  }

  /** The filter buttons, in display order: `['all', 'todo', 'in-progress', 'review', 'done']`. */
  const FilterOptions: seq<StatusFilter> := [All, Only(Todo), Only(InProgress), Only(Review), Only(Done)]

  /** A filter button's caption. */
  function FilterCaption(option: StatusFilter): string
  {
    if option.All? then "Все" else GetStatusBadge(option.status).caption
  }

  /** A filter button's variant: the selected one stands out. */
  function FilterButtonVariant(selected: StatusFilter, option: StatusFilter): Variant
  {
    if selected == option then Default else Outline
  }

  /** Every selection has exactly one button, at a fixed position. */
  lemma {:induction false} FilterOptionsExhaustive(sel: StatusFilter)
    ensures sel in FilterOptions
    ensures forall i, j :: 0 <= i < j < |FilterOptions| ==> FilterOptions[i] != FilterOptions[j]
  {
    match sel
    case All => assert FilterOptions[0] == sel;
    case Only(s) =>
      match s
      case Todo => assert FilterOptions[1] == sel;
      case InProgress => assert FilterOptions[2] == sel;
      case Review => assert FilterOptions[3] == sel;
      case Done => assert FilterOptions[4] == sel;
  }

  /** Whatever is selected, some button is highlighted, and no two are. */
  lemma ExactlyOneHighlighted(sel: StatusFilter, i: nat, j: nat)
    requires i < |FilterOptions| && j < |FilterOptions|
    ensures exists k :: 0 <= k < |FilterOptions| && FilterButtonVariant(sel, FilterOptions[k]) == Default
    ensures (FilterButtonVariant(sel, FilterOptions[i]) == Default &&
             FilterButtonVariant(sel, FilterOptions[j]) == Default) ==> i == j
  {
    FilterOptionsExhaustive(sel);
  }

  lemma FilterCaptionsDistinct(a: StatusFilter, b: StatusFilter)
    ensures FilterCaption(a) == FilterCaption(b) <==> a == b
  {
  }
}
