/**
 * The page-level state of the portfolio's script (app.js), with the DOM
 * replaced by a small record: the menu flags, the nav-link highlights, the
 * single form banner above the contact form, the single toast, the submit
 * button, the form fields, the skill bars and the reveal marks.
 *
 * Timers are explicit: each setTimeout becomes a pending Timer carrying its
 * due time on a logical clock and what it will do; Fire delivers the one the
 * browser runs next. A timer that acts on a banner or toast carries the id of
 * that node, and its `parentNode` guard becomes "that node is still in the
 * document".
 */
module Ui {
  import opened Validation
  import opened Navigation
  import opened Menu

  datatype Option<T> = None | Some(value: T)

  // Delays in milliseconds, as the script schedules them.
  const BannerLifetime := 5000
  const ToastEnterDelay := 100
  const ToastLifetime := 5000
  const ToastExitDelay := 300
  const SubmitLatency := 1500
  const SkillBarDelay := 200

  const SendingLabel := "Sending..."
  const SuccessText := "Thank you for your message! I'll get back to you soon."

  /** The two looks of a form banner: `status--error`, or `status--success` for any other kind. */
  datatype Style = ErrorStyle | SuccessStyle

  /** A `.form-message` node. */
  datatype Banner = Banner(id: nat, style: Style, text: string)

  /** A `.notification` node; `onscreen` is its transform (translateX(0) rather than 120%). */
  datatype Toast = Toast(id: nat, text: string, onscreen: bool)

  /** The four contact-form fields, already trimmed. */
  datatype Form = Form(name: string, email: string, subject: string, message: string)

  const EmptyForm := Form("", "", "", "")

  /** What a pending timer does when it runs. */
  datatype Action =
    | ExpireBanner(node: nat)            // remove a success banner 5000 ms on
    | SlideIn(node: nat)                 // move a toast on screen 100 ms on
    | SlideOut(node: nat)                // move a toast off screen 5000 ms on
    | RemoveToast(node: nat)             // remove a toast 300 ms after sliding out
    | FinishSubmit(originalLabel: string) // end the simulated submission 1500 ms on
    | GrowBar(bar: nat, width: string)   // set a skill bar's width 200 ms on

  datatype Timer = Timer(due: nat, action: Action)

  /** One IntersectionObserver entry for a watched reveal element. */
  datatype Entry = Entry(target: nat, intersecting: bool)

  /** Everything a handler can change, as one value. */
  datatype PageState = PageState(
    now: nat,
    pending: seq<Timer>,
    nextNode: nat,
    menu: MenuFlags,
    linkActive: seq<bool>,
    banners: seq<Banner>,
    toasts: seq<Toast>,
    buttonLabel: string,
    buttonDisabled: bool,
    form: Form,
    skillsObserved: bool,
    barWidths: seq<Option<string>>,
    revealed: seq<bool>)

  /**
   * The timer the browser runs next: the earliest due, and among timers due
   * at the same moment the one scheduled first.
   */
  function NextDue(timers: seq<Timer>): (k: nat)
    requires timers != []
    ensures k < |timers|
    ensures forall j | 0 <= j < |timers| :: timers[k].due <= timers[j].due
    ensures forall j | 0 <= j < k :: timers[j].due > timers[k].due
  {
    if |timers| == 1 then 0
    else
      var init := timers[..|timers| - 1];
      var k := NextDue(init);
      assert forall j | 0 <= j < |init| :: init[j] == timers[j];
      if timers[|timers| - 1].due < timers[k].due then |timers| - 1 else k
  }

  function TargetNode(a: Action): Option<nat> {
    match a
    case ExpireBanner(n) => Some(n)
    case SlideIn(n) => Some(n)
    case SlideOut(n) => Some(n)
    case RemoveToast(n) => Some(n)
    case _ => None
  }

  predicate HasBanner(banners: seq<Banner>, id: nat) {
    exists i | 0 <= i < |banners| :: banners[i].id == id
  }

  predicate HasToast(toasts: seq<Toast>, id: nat) {
    exists i | 0 <= i < |toasts| :: toasts[i].id == id
  }

  /** `node.remove()` on the banner with that id. */
  function DropBanner(banners: seq<Banner>, id: nat): (r: seq<Banner>)
    ensures forall b :: b in r <==> b in banners && b.id != id
    ensures |r| <= |banners|
    ensures !HasBanner(banners, id) ==> r == banners
    ensures forall x | HasBanner(r, x) :: HasBanner(banners, x) && x != id
  {
    if banners == [] then []
    else
      var rest := DropBanner(banners[1..], id);
      assert !HasBanner(banners, id) ==> !HasBanner(banners[1..], id) by {
        if HasBanner(banners[1..], id) {
          var i :| 0 <= i < |banners[1..]| && banners[1..][i].id == id;
          assert banners[i + 1].id == id;
        }
      }
      var r := (if banners[0].id == id then [] else [banners[0]]) + rest;
      assert forall x | HasBanner(r, x) :: HasBanner(banners, x) && x != id by {
        forall x | HasBanner(r, x) ensures HasBanner(banners, x) && x != id {
          var i :| 0 <= i < |r| && r[i].id == x;
          assert r[i] in r;
          var j :| 0 <= j < |banners| && banners[j] == r[i];
        }
      }
      r
  }

  /** `node.remove()` on the toast with that id. */
  function DropToast(toasts: seq<Toast>, id: nat): (r: seq<Toast>)
    ensures forall t :: t in r <==> t in toasts && t.id != id
    ensures |r| <= |toasts|
    ensures !HasToast(toasts, id) ==> r == toasts
    ensures forall x | HasToast(r, x) :: HasToast(toasts, x) && x != id
  {
    if toasts == [] then []
    else
      var rest := DropToast(toasts[1..], id);
      assert !HasToast(toasts, id) ==> !HasToast(toasts[1..], id) by {
        if HasToast(toasts[1..], id) {
          var i :| 0 <= i < |toasts[1..]| && toasts[1..][i].id == id;
          assert toasts[i + 1].id == id;
        }
      }
      var r := (if toasts[0].id == id then [] else [toasts[0]]) + rest;
      assert forall x | HasToast(r, x) :: HasToast(toasts, x) && x != id by {
        forall x | HasToast(r, x) ensures HasToast(toasts, x) && x != id {
          var i :| 0 <= i < |r| && r[i].id == x;
          assert r[i] in r;
          var j :| 0 <= j < |toasts| && toasts[j] == r[i];
        }
      }
      r
  }

  /** Set the transform of the toast with that id; a detached node leaves the document as it is. */
  function MoveToast(toasts: seq<Toast>, id: nat, onscreen: bool): (r: seq<Toast>)
    ensures |r| == |toasts|
    ensures forall i | 0 <= i < |r| :: r[i].id == toasts[i].id && r[i].text == toasts[i].text
    ensures forall i | 0 <= i < |r| :: r[i].onscreen == if toasts[i].id == id then onscreen else toasts[i].onscreen
    ensures forall x :: HasToast(r, x) <==> HasToast(toasts, x)
    ensures !HasToast(toasts, id) ==> r == toasts
  {
    seq(|toasts|, i requires 0 <= i < |toasts| =>
      if toasts[i].id == id then toasts[i].(onscreen := onscreen) else toasts[i])
  }

  /** The timers the skill-bar callback schedules, one per bar, in document order. */
  function BarTimers(due: nat, widths: seq<string>): seq<Timer> {
    seq(|widths|, i requires 0 <= i < |widths| => Timer(due, GrowBar(i, widths[i])))
  }

  /** How many entries of an observer batch are intersecting. */
  function Intersecting(entries: seq<bool>): (n: nat)
    ensures n <= |entries|
    ensures n == 0 <==> forall i | 0 <= i < |entries| :: !entries[i]
  {
    if entries == [] then 0
    else
      var init := entries[..|entries| - 1];
      assert forall i | 0 <= i < |init| :: init[i] == entries[i];
      Intersecting(init) + if entries[|entries| - 1] then 1 else 0
  }

  /** The same timers scheduled `n` times over, one round after the other. */
  function Repeat(timers: seq<Timer>, n: nat): (r: seq<Timer>)
    ensures |r| == n * |timers|
    ensures forall t | t in r :: t in timers
  {
    if n == 0 then [] else Repeat(timers, n - 1) + timers
  }

  /** The banner or toast node with that id is in the document. */
  predicate Attached(s: PageState, id: nat) {
    HasBanner(s.banners, id) || HasToast(s.toasts, id)
  }

  /** A timer aimed at a node that is no longer (or never was) in the document. */
  predicate Stale(s: PageState, a: Action) {
    TargetNode(a).Some? && !Attached(s, TargetNode(a).value)
  }

  /**
   * What a timer callback does to the page: the parentNode guards of the
   * banner removal, the slide-out and the toast removal, the unguarded
   * slide-in and bar growth, and the end of a submission, which shows the
   * success banner as ShowFormMessage does.
   */
  function AfterTimer(s: PageState, a: Action): (r: PageState)
    ensures Stale(s, a) ==> r == s
    ensures r.now == s.now && r.menu == s.menu && r.linkActive == s.linkActive
    ensures r.skillsObserved == s.skillsObserved && r.revealed == s.revealed
    ensures |s.banners| <= 1 && |s.toasts| <= 1 ==> |r.banners| <= 1 && |r.toasts| <= 1
  {
    match a
    case ExpireBanner(n) => s.(banners := DropBanner(s.banners, n))
    case SlideIn(n) => s.(toasts := MoveToast(s.toasts, n, true))
    case SlideOut(n) =>
      if HasToast(s.toasts, n)
      then s.(toasts := MoveToast(s.toasts, n, false),
              pending := s.pending + [Timer(s.now + ToastExitDelay, RemoveToast(n))])
      else s
    case RemoveToast(n) => s.(toasts := DropToast(s.toasts, n))
    case FinishSubmit(original) =>
      s.(buttonLabel := original,
         buttonDisabled := false,
         nextNode := s.nextNode + 1,
         banners := [Banner(s.nextNode, SuccessStyle, SuccessText)],
         pending := s.pending + [Timer(s.now + BannerLifetime, ExpireBanner(s.nextNode))],
         form := EmptyForm)
    case GrowBar(i, width) =>
      if i < |s.barWidths| then s.(barWidths := s.barWidths[i := Some(width)]) else s
  }

  /** A timer aims only at nodes already created and at bars that exist. */
  predicate TimerOk(t: Timer, nodes: nat, bars: nat) {
    match t.action
    case GrowBar(i, _) => i < bars
    case FinishSubmit(_) => true
    case _ => TargetNode(t.action).value < nodes
  }

  /** Creating nodes keeps every timer's target among the created ones. */
  lemma TimersOkGrow(timers: seq<Timer>, nodes: nat, more: nat, bars: nat)
    requires nodes <= more
    requires forall t | t in timers :: TimerOk(t, nodes, bars)
    ensures forall t | t in timers :: TimerOk(t, more, bars)
  {
  }

  class Page {
    /** The href of each `.nav-link`, in document order. */
    const linkHrefs: seq<string>
    /** The data-width of each `.skill-progress` bar. */
    const barTargets: seq<string>
    /** How many elements the reveal observer watches. */
    const revealCount: nat

    var now: nat
    var pending: seq<Timer>
    var nextNode: nat
    var hamburgerActive: bool
    var menuActive: bool
    var linkActive: seq<bool>
    var banners: seq<Banner>
    var toasts: seq<Toast>
    var buttonLabel: string
    var buttonDisabled: bool
    var form: Form
    var skillsObserved: bool
    var barWidths: seq<Option<string>>
    var revealed: seq<bool>
    /** How many times the skill-bar animation has been scheduled. */
    ghost var skillAnimations: nat

    function Flags(): MenuFlags
      reads this
    {
      MenuFlags(hamburgerActive, menuActive)
    }

    ghost function State(): PageState
      reads this
    {
      PageState(now, pending, nextNode, Flags(), linkActive, banners, toasts,
                buttonLabel, buttonDisabled, form, skillsObserved, barWidths, revealed)
    }

    /** Only nodes created during the step (id at least `bound`) can have joined the document. */
    twostate predicate OnlyFreshAttached(bound: nat)
      reads this
    {
      forall id | Attached(State(), id) :: old(Attached(State(), id)) || bound <= id
    }

    ghost predicate Valid()
      reads this
    {
      && |linkActive| == |linkHrefs|
      && |barWidths| == |barTargets|
      && |revealed| == revealCount
      && |banners| <= 1
      && |toasts| <= 1
      && (forall i | 0 <= i < |banners| :: banners[i].id < nextNode)
      && (forall i | 0 <= i < |toasts| :: toasts[i].id < nextNode)
      && (forall t | t in pending :: TimerOk(t, nextNode, |barTargets|))
      && Flags().Synced()
      && (skillsObserved ==> skillAnimations == 0)
    }

    /** The page after DOMContentLoaded: nothing active, nothing shown, nothing pending. */
    constructor (hrefs: seq<string>, watchedCount: nat, widths: seq<string>, hasSkillsSection: bool, submitLabel: string)
      ensures Valid()
      ensures linkHrefs == hrefs && barTargets == widths && revealCount == watchedCount
      ensures State() == PageState(0, [], 0, Closed, seq(|hrefs|, _ => false), [], [],
                                   submitLabel, false, EmptyForm, hasSkillsSection,
                                   seq(|widths|, _ => None), seq(watchedCount, _ => false))
      ensures skillAnimations == 0
    {
      linkHrefs, barTargets, revealCount := hrefs, widths, watchedCount;
      now, pending, nextNode := 0, [], 0;
      hamburgerActive, menuActive := false, false;
      linkActive := seq(|hrefs|, _ => false);
      banners, toasts := [], [];
      buttonLabel, buttonDisabled, form := submitLabel, false, EmptyForm;
      skillsObserved := hasSkillsSection;
      barWidths := seq(|widths|, _ => None);
      revealed := seq(watchedCount, _ => false);
      skillAnimations := 0;
    }

    /**
     * showFormMessage: the existing banner goes, a new one with a fresh id
     * takes its place, and a success banner gets its removal timer.
     */
    method ShowFormMessage(message: string, kind: string)
      requires Valid()
      modifies this
      ensures Valid()
      ensures var node := old(nextNode);
        State() == old(State()).(
          nextNode := node + 1,
          banners := [Banner(node, if kind == "error" then ErrorStyle else SuccessStyle, message)],
          pending := old(pending) + if kind == "success" then [Timer(old(now) + BannerLifetime, ExpireBanner(node))] else [])
      ensures skillAnimations == old(skillAnimations)
      ensures OnlyFreshAttached(old(nextNode))
    {
      var node := nextNode;
      PlaceBanner(message, if kind == "error" then ErrorStyle else SuccessStyle);
      if kind == "success" {
        ScheduleExpiry(node);
      }
    }

    /** Remove the banner in the slot, if any, and insert a new one with a fresh id. */
    method PlaceBanner(message: string, style: Style)
      requires Valid()
      modifies this
      ensures Valid()
      ensures State() == old(State()).(nextNode := old(nextNode) + 1, banners := [Banner(old(nextNode), style, message)])
      ensures skillAnimations == old(skillAnimations)
      ensures OnlyFreshAttached(old(nextNode))
    {
      if banners != [] {
        banners := banners[1..];
      }
      var node := nextNode;
      nextNode := nextNode + 1;
      TimersOkGrow(pending, node, nextNode, |barTargets|);
      banners := banners + [Banner(node, style, message)];
    }

    /** The success banner's removal, 5000 ms on. */
    method ScheduleExpiry(node: nat)
      requires Valid() && node < nextNode
      modifies this
      ensures Valid()
      ensures State() == old(State()).(pending := old(pending) + [Timer(old(now) + BannerLifetime, ExpireBanner(node))])
      ensures skillAnimations == old(skillAnimations)
    {
      pending := pending + [Timer(now + BannerLifetime, ExpireBanner(node))];
    }

    /**
     * showNotification: the existing toast goes, a new off-screen one with a
     * fresh id is appended, with its slide-in and slide-out timers. The kind
     * is accepted and not used, as in the script.
     */
    method ShowNotification(message: string, kind: string)
      requires Valid()
      modifies this
      ensures Valid()
      ensures var node := old(nextNode);
        State() == old(State()).(
          nextNode := node + 1,
          toasts := [Toast(node, message, false)],
          pending := old(pending) + [Timer(old(now) + ToastEnterDelay, SlideIn(node)),
                                     Timer(old(now) + ToastLifetime, SlideOut(node))])
      ensures skillAnimations == old(skillAnimations)
      ensures OnlyFreshAttached(old(nextNode))
    {
      if toasts != [] {
        toasts := toasts[1..];
      }
      assert toasts == [];
      var node := nextNode;
      nextNode := nextNode + 1;
      toasts := [Toast(node, message, false)];
      var timers := [Timer(now + ToastEnterDelay, SlideIn(node)), Timer(now + ToastLifetime, SlideOut(node))];
      TimersOkGrow(pending, node, nextNode, |barTargets|);
      pending := pending + timers;
    }

    /**
     * validateForm: collects the failed rules' messages in rule order; if
     * any, shows them as one error banner joined by `<br>` and answers false.
     */
    method ValidateForm(name: string, email: string, subject: string, message: string) returns (ok: bool)
      requires Valid()
      modifies this
      ensures Valid()
      ensures ok <==> Errors(name, email, subject, message) == []
      ensures ok ==> State() == old(State())
      ensures !ok ==> State() == old(State()).(
        nextNode := old(nextNode) + 1,
        banners := [Banner(old(nextNode), ErrorStyle, Join(Errors(name, email, subject, message), LineBreak))])
      ensures skillAnimations == old(skillAnimations)
      ensures OnlyFreshAttached(old(nextNode))
    {
      var errors: seq<string> := [];
      if |name| < 2 {
        errors := errors + [NameError];
      }
      if !MatchesEmailPattern(email) {
        errors := errors + [EmailError];
      }
      if |subject| < 3 {
        errors := errors + [SubjectError];
      }
      if |message| < 10 {
        errors := errors + [MessageError];
      }
      assert errors == Errors(name, email, subject, message);
      if |errors| > 0 {
        ShowFormMessage(Join(errors, LineBreak), "error");
        return false;
      }
      return true;
    }

    /** simulateFormSubmission: the button shows "Sending..." and is disabled until FinishSubmit runs. */
    method SimulateSubmission()
      requires Valid()
      modifies this
      ensures Valid()
      ensures State() == old(State()).(
        buttonLabel := SendingLabel,
        buttonDisabled := true,
        pending := old(pending) + [Timer(old(now) + SubmitLatency, FinishSubmit(old(buttonLabel)))])
      ensures skillAnimations == old(skillAnimations)
    {
      var originalText := buttonLabel;
      buttonLabel := SendingLabel;
      buttonDisabled := true;
      pending := pending + [Timer(now + SubmitLatency, FinishSubmit(originalText))];
    }

    /**
     * The contact form's submit handler: validate the fields; on failure the
     * error banner is all that changes, otherwise the submission starts.
     */
    method Submit()
      requires Valid()
      modifies this
      ensures Valid()
      ensures var errors := Errors(old(form.name), old(form.email), old(form.subject), old(form.message));
        if errors == [] then
          State() == old(State()).(
            buttonLabel := SendingLabel,
            buttonDisabled := true,
            pending := old(pending) + [Timer(old(now) + SubmitLatency, FinishSubmit(old(buttonLabel)))])
        else
          State() == old(State()).(
            nextNode := old(nextNode) + 1,
            banners := [Banner(old(nextNode), ErrorStyle, Join(errors, LineBreak))])
      ensures skillAnimations == old(skillAnimations)
      ensures OnlyFreshAttached(old(nextNode))
    {
      var ok := ValidateForm(form.name, form.email, form.subject, form.message);
      if ok {
        SimulateSubmission();
      }
    }

    /** The visitor types into the form. */
    method EditForm(fields: Form)
      requires Valid()
      modifies this
      ensures Valid()
      ensures State() == old(State()).(form := fields)
      ensures skillAnimations == old(skillAnimations)
    {
      form := fields;
    }

    /**
     * A click: the clicked element's own handler (hamburger toggle, nav-link
     * close, toast close button), then the document-level outside-click handler.
     */
    method Click(target: ClickTarget)
      requires Valid()
      modifies this
      ensures Valid()
      ensures State() == old(State()).(
        menu := AfterClick(old(Flags()), target),
        toasts := if target.ToastClose? then DropToast(old(toasts), target.node) else old(toasts))
      ensures skillAnimations == old(skillAnimations)
      ensures OnlyFreshAttached(old(nextNode))
    {
      match target {
        case Hamburger => ToggleMenu();
        case NavLink(_) => CloseMenu();
        case ToastClose(node) => CloseToast(node);
        case _ =>
      }
      if !InsideMenuControls(target) {
        CloseMenu();
      }
    }

    /** The hamburger's click handler: toggle both `active` flags. */
    method ToggleMenu()
      requires Valid()
      modifies this
      ensures Valid()
      ensures State() == old(State()).(menu := MenuFlags(!old(hamburgerActive), !old(menuActive)))
      ensures skillAnimations == old(skillAnimations)
    {
      hamburgerActive := !hamburgerActive;
      menuActive := !menuActive;
    }

    /** Clear both `active` flags, as the nav-link and outside-click handlers do. */
    method CloseMenu()
      requires Valid()
      modifies this
      ensures Valid()
      ensures State() == old(State()).(menu := Closed)
      ensures skillAnimations == old(skillAnimations)
    {
      menuActive := false;
      hamburgerActive := false;
    }

    /** The inline onclick of a toast's close button: remove that toast at once. */
    method CloseToast(node: nat)
      requires Valid()
      modifies this
      ensures Valid()
      ensures State() == old(State()).(toasts := DropToast(old(toasts), node))
      ensures skillAnimations == old(skillAnimations)
      ensures OnlyFreshAttached(old(nextNode))
    {
      toasts := DropToast(toasts, node);
    }

    /** The document keydown handler: Escape closes an open menu and removes any toast. */
    method KeyDown(key: string)
      requires Valid()
      modifies this
      ensures Valid()
      ensures State() == old(State()).(
        menu := AfterKey(old(Flags()), key),
        toasts := if key == "Escape" then [] else old(toasts))
      ensures skillAnimations == old(skillAnimations)
      ensures OnlyFreshAttached(old(nextNode))
    {
      if key == "Escape" {
        if menuActive {
          menuActive := false;
          hamburgerActive := false;
        }
        if toasts != [] {
          toasts := toasts[1..];
        }
      }
    }

    /**
     * The scroll listener of initNavigation: find the current section 100 px
     * below the offset, then re-mark every nav link from scratch. The offset
     * is taken as a whole number of pixels: section offsets and heights are
     * integers, so flooring a fractional `pageYOffset` selects the same
     * section.
     */
    method OnScroll(sections: seq<Section>, pageYOffset: int)
      requires Valid()
      modifies this
      ensures Valid()
      ensures MarksCurrent(linkHrefs, linkActive, LastMatch(sections, pageYOffset + ScrollProbe))
      ensures State() == old(State()).(linkActive := linkActive)
      ensures skillAnimations == old(skillAnimations)
    {
      var current := CurrentSection(sections, pageYOffset + ScrollProbe);
      var i := 0;
      while i < |linkHrefs|
        invariant 0 <= i <= |linkHrefs| == |linkActive|
        invariant forall j | 0 <= j < i :: linkActive[j] == (linkHrefs[j] == "#" + current)
        invariant State() == old(State()).(linkActive := linkActive)
        invariant skillAnimations == old(skillAnimations)
        invariant Valid()
      {
        linkActive := linkActive[i := false];
        if linkHrefs[i] == "#" + current {
          linkActive := linkActive[i := true];
        }
        i := i + 1;
      }
    }

    /**
     * The skill-section observer's callback for one batch of entries, all for
     * the section. A batch arrives only while the section is observed. Each
     * intersecting entry schedules every bar's growth and unobserves the
     * section; `forEach` goes on through the rest of the batch, so a second
     * intersecting entry in the same batch schedules the bars again.
     */
    method SkillsBatch(entries: seq<bool>)
      requires Valid()
      modifies this
      ensures Valid()
      ensures var n := if old(skillsObserved) then Intersecting(entries) else 0;
        && State() == old(State()).(
             skillsObserved := old(skillsObserved) && n == 0,
             pending := old(pending) + Repeat(BarTimers(old(now) + SkillBarDelay, barTargets), n))
        && skillAnimations == old(skillAnimations) + n
    {
      if skillsObserved {
        ghost var bars := BarTimers(now + SkillBarDelay, barTargets);
        ghost var n := 0;
        var k := 0;
        while k < |entries|
          invariant 0 <= k <= |entries|
          invariant n == Intersecting(entries[..k])
          invariant Valid()
          invariant State() == old(State()).(skillsObserved := n == 0, pending := old(pending) + Repeat(bars, n))
          invariant skillAnimations == old(skillAnimations) + n
        {
          assert entries[..k + 1][..k] == entries[..k];
          SkillEntry(entries[k]);
          if entries[k] {
            n := n + 1;
          }
          k := k + 1;
        }
        assert entries[..k] == entries;
      }
    }

    /** One entry of the batch: an intersecting one schedules the bars and unobserves the section. */
    method SkillEntry(intersecting: bool)
      requires Valid()
      modifies this
      ensures Valid()
      ensures intersecting ==>
        && State() == old(State()).(
             skillsObserved := false,
             pending := old(pending) + BarTimers(old(now) + SkillBarDelay, barTargets))
        && skillAnimations == old(skillAnimations) + 1
      ensures !intersecting ==> State() == old(State()) && skillAnimations == old(skillAnimations)
    {
      if intersecting {
        ScheduleBars();
        skillsObserved := false;
        skillAnimations := skillAnimations + 1;
      }
    }

    /** The work for one intersecting entry: one 200 ms width timer per bar, in document order. */
    method ScheduleBars()
      requires Valid()
      modifies this
      ensures Valid()
      ensures State() == old(State()).(pending := old(pending) + BarTimers(old(now) + SkillBarDelay, barTargets))
      ensures skillAnimations == old(skillAnimations)
    {
      var i := 0;
      while i < |barTargets|
        invariant 0 <= i <= |barTargets|
        invariant pending == old(pending) + BarTimers(now + SkillBarDelay, barTargets[..i])
        invariant State() == old(State()).(pending := pending)
        invariant skillAnimations == old(skillAnimations)
        invariant Valid()
      {
        assert BarTimers(now + SkillBarDelay, barTargets[..i + 1])
            == BarTimers(now + SkillBarDelay, barTargets[..i]) + [Timer(now + SkillBarDelay, GrowBar(i, barTargets[i]))];
        pending := pending + [Timer(now + SkillBarDelay, GrowBar(i, barTargets[i]))];
        i := i + 1;
      }
      assert barTargets[..i] == barTargets;
    }

    /** The reveal observer's callback: every intersecting entry marks its element visible. */
    method Reveal(entries: seq<Entry>)
      requires Valid()
      requires forall e | e in entries :: e.target < revealCount
      modifies this
      ensures Valid()
      ensures forall i | 0 <= i < revealCount :: revealed[i] == (old(revealed)[i] || Entry(i, true) in entries)
      ensures State() == old(State()).(revealed := revealed)
      ensures skillAnimations == old(skillAnimations)
    {
      var k := 0;
      while k < |entries|
        invariant 0 <= k <= |entries|
        invariant |revealed| == revealCount
        invariant forall i | 0 <= i < revealCount :: revealed[i] == (old(revealed)[i] || Entry(i, true) in entries[..k])
        invariant State() == old(State()).(revealed := revealed)
        invariant skillAnimations == old(skillAnimations)
      {
        assert entries[..k + 1] == entries[..k] + [entries[k]];
        if entries[k].intersecting {
          revealed := revealed[entries[k].target := true];
        }
        k := k + 1;
      }
      assert entries[..k] == entries;
    }

    /**
     * Time passes with no timer running: the clock moves on to `t`, which is
     * not past the next pending timer's due time.
     */
    method Wait(t: nat)
      requires Valid() && now <= t
      requires pending != [] ==> t <= pending[NextDue(pending)].due
      modifies this
      ensures Valid()
      ensures State() == old(State()).(now := t)
      ensures skillAnimations == old(skillAnimations)
    {
      now := t;
    }

    /**
     * Run the next timer. A timer aimed at a node that has left the document
     * changes nothing but the clock and the pending list.
     */
    method Fire()
      requires Valid() && pending != []
      modifies this
      ensures Valid()
      ensures skillAnimations == old(skillAnimations)
      ensures OnlyFreshAttached(old(nextNode))
      ensures var k := NextDue(old(pending));
        var t := old(pending)[k];
        var base := old(State()).(now := if t.due > old(now) then t.due else old(now),
                                  pending := old(pending)[..k] + old(pending)[k + 1..]);
        State() == AfterTimer(base, t.action)
    {
      var t := TakeNextTimer();
      RunTimer(t.action);
    }

    /** The event loop picks the next timer and the clock reaches its due time. */
    method TakeNextTimer() returns (t: Timer)
      requires Valid() && pending != []
      modifies this
      ensures Valid()
      ensures skillAnimations == old(skillAnimations)
      ensures t == old(pending)[NextDue(old(pending))]
      ensures TimerOk(t, nextNode, |barTargets|)
      ensures var k := NextDue(old(pending));
        State() == old(State()).(now := if t.due > old(now) then t.due else old(now),
                                 pending := old(pending)[..k] + old(pending)[k + 1..])
    {
      var k := NextDue(pending);
      t := pending[k];
      assert t in pending;
      pending := pending[..k] + pending[k + 1..];
      assert forall x | x in pending :: x in old(pending);
      if t.due > now {
        now := t.due;
      }
    }

    /** Run one timer callback. */
    method RunTimer(a: Action)
      requires Valid() && TimerOk(Timer(0, a), nextNode, |barTargets|)
      modifies this
      ensures Valid()
      ensures skillAnimations == old(skillAnimations)
      ensures OnlyFreshAttached(old(nextNode))
      ensures State() == AfterTimer(old(State()), a)
    {
      match a {
        case ExpireBanner(n) => ExpireBannerTimer(n);
        case SlideIn(n) => SlideInTimer(n);
        case SlideOut(n) => SlideOutTimer(n);
        case RemoveToast(n) => RemoveToastTimer(n);
        case FinishSubmit(original) => FinishSubmitTimer(original);
        case GrowBar(i, width) => GrowBarTimer(i, width);
      }
    }

    /** The success banner's removal timer: remove that node if it is still in the document. */
    method ExpireBannerTimer(node: nat)
      requires Valid()
      modifies this
      ensures Valid()
      ensures skillAnimations == old(skillAnimations)
      ensures OnlyFreshAttached(old(nextNode))
      ensures State() == old(State()).(banners := DropBanner(old(banners), node))
    {
      if HasBanner(banners, node) {
        banners := DropBanner(banners, node);
      }
    }

    /**
     * The toast's slide-in timer. The script does not check `parentNode`
     * here; on a detached node the transform change is invisible.
     */
    method SlideInTimer(node: nat)
      requires Valid()
      modifies this
      ensures Valid()
      ensures skillAnimations == old(skillAnimations)
      ensures OnlyFreshAttached(old(nextNode))
      ensures State() == old(State()).(toasts := MoveToast(old(toasts), node, true))
    {
      toasts := MoveToast(toasts, node, true);
    }

    /** The toast's auto-dismiss timer: slide an attached toast off screen and schedule its removal. */
    method SlideOutTimer(node: nat)
      requires Valid() && node < nextNode
      modifies this
      ensures Valid()
      ensures skillAnimations == old(skillAnimations)
      ensures OnlyFreshAttached(old(nextNode))
      ensures State() == if HasToast(old(toasts), node)
        then old(State()).(
          toasts := MoveToast(old(toasts), node, false),
          pending := old(pending) + [Timer(old(now) + ToastExitDelay, RemoveToast(node))])
        else old(State())
    {
      if HasToast(toasts, node) {
        toasts := MoveToast(toasts, node, false);
        pending := pending + [Timer(now + ToastExitDelay, RemoveToast(node))];
      }
    }

    /** The removal timer set by the slide-out: remove the toast if it is still in the document. */
    method RemoveToastTimer(node: nat)
      requires Valid()
      modifies this
      ensures Valid()
      ensures skillAnimations == old(skillAnimations)
      ensures OnlyFreshAttached(old(nextNode))
      ensures State() == old(State()).(toasts := DropToast(old(toasts), node))
    {
      if HasToast(toasts, node) {
        toasts := DropToast(toasts, node);
      }
    }

    /**
     * The end of the simulated submission: the button gets back the label it
     * had when the submission started and is enabled, a success banner is
     * shown and the fields are reset.
     */
    method FinishSubmitTimer(original: string)
      requires Valid()
      modifies this
      ensures Valid()
      ensures skillAnimations == old(skillAnimations)
      ensures OnlyFreshAttached(old(nextNode))
      ensures State() == old(State()).(
        buttonLabel := original,
        buttonDisabled := false,
        nextNode := old(nextNode) + 1,
        banners := [Banner(old(nextNode), SuccessStyle, SuccessText)],
        pending := old(pending) + [Timer(old(now) + BannerLifetime, ExpireBanner(old(nextNode)))],
        form := EmptyForm)
    {
      buttonLabel := original;
      buttonDisabled := false;
      ShowFormMessage(SuccessText, "success");
      form := EmptyForm;
    }

    /** A skill bar's timer: set its width to the target read when the section first intersected. */
    method GrowBarTimer(bar: nat, width: string)
      requires Valid() && bar < |barTargets|
      modifies this
      ensures Valid()
      ensures skillAnimations == old(skillAnimations)
      ensures State() == old(State()).(barWidths := old(barWidths)[bar := Some(width)])
    {
      barWidths := barWidths[bar := Some(width)];
    }
  }
}
