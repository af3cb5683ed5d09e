/** The "Quick Numbers" header shared by both dashboards: how many stage
    cards show before "Show More", which flag the button toggles and which
    label it shows. The two viewport flags come from the window width:
    mobile below 640 pixels, desktop from 1024. */
module QuickNumbers {

  datatype View = View(width: int, showAllQuick: bool, showAllDesktopQuick: bool)

  predicate IsMobile(v: View) {
    v.width < 640
  }

  predicate IsDesktop(v: View) {
    v.width >= 1024
  }

  /** `isMobileQuick ? 2 : (isDesktopQuick ? 3 : 2)`. */
  function MaxInitialStages(v: View): (n: nat)
    ensures n == 3 <==> v.width >= 1024
    ensures n == 2 <==> v.width < 1024
  {
    if IsMobile(v) then 2 else if IsDesktop(v) then 3 else 2
  }

  /** The button shows only when there are more stages than fit. */
  predicate ShowMoreVisible(stageCount: nat, v: View) {
    stageCount > MaxInitialStages(v)
  }

  /** The flag the button's label reads: "Show Less" when it is set. */
  predicate LabelExpanded(v: View) {
    if IsMobile(v) then v.showAllQuick
    else if IsDesktop(v) then v.showAllDesktopQuick
    else v.showAllQuick
  }

  /** The flag the stage list reads when deciding whether to cut it. */
  predicate ShowAll(v: View) {
    if IsDesktop(v) then v.showAllDesktopQuick else v.showAllQuick
  }

  /** The button's click handler. */
  function Toggle(v: View): (w: View)
    ensures w.width == v.width
    ensures IsDesktop(v) ==> w.showAllQuick == v.showAllQuick && w.showAllDesktopQuick == !v.showAllDesktopQuick
    ensures !IsDesktop(v) ==> w.showAllDesktopQuick == v.showAllDesktopQuick && w.showAllQuick == !v.showAllQuick
  {
    if IsMobile(v) then v.(showAllQuick := !v.showAllQuick)
    else if IsDesktop(v) then v.(showAllDesktopQuick := !v.showAllDesktopQuick)
    else v.(showAllQuick := !v.showAllQuick)
  }

  /** Because the two width tests cannot both hold, the label and the list
      read the same flag at every width, and a click flips both. */
  lemma LabelMatchesList(v: View)
    ensures LabelExpanded(v) == ShowAll(v)
    ensures ShowAll(Toggle(v)) == !ShowAll(v)
    ensures Toggle(Toggle(v)) == v
  {
  }

  /** `displayedStages`: all stage definitions, or only the first
      `maxInitialStages` of them while collapsed. */
  function DisplayedStages<T>(defs: seq<T>, v: View): (shown: seq<T>)
    ensures ShowAll(v) ==> shown == defs
    ensures !ShowAll(v) ==> |shown| == (if |defs| < MaxInitialStages(v) then |defs| else MaxInitialStages(v))
    ensures shown == defs[..|shown|]
  {
    if ShowAll(v) then defs
    else if |defs| <= MaxInitialStages(v) then defs
    else defs[..MaxInitialStages(v)]
  }

  /** When the button is hidden nothing is cut, whatever the flags say; when
      it is shown and collapsed, exactly the first two or three stages show. */
  lemma DisplayedWhenButtonHidden<T>(defs: seq<T>, v: View)
    ensures !ShowMoreVisible(|defs|, v) ==> DisplayedStages(defs, v) == defs
    ensures ShowMoreVisible(|defs|, v) && !ShowAll(v) ==>
      |DisplayedStages(defs, v)| == MaxInitialStages(v) < |defs|
  {
  }
}
