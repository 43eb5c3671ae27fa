/**
 * End-to-end runs of the page, written as client code: each one drives a
 * Page through events and timers and asserts what the script promises,
 * using only the contracts of Page's methods.
 */
module Scenarios {
  import opened Validation
  import opened Menu
  import opened Ui

  /** A valid form: "Sending..." and disabled at once; after 1500 ms the original label, a success banner, empty fields. */
  method ValidSubmission() {
    var p := new Page([], 0, [], false, "Send Message");
    p.EditForm(Form("Jo", "a@b.co", "Hi there", "This is a long enough message"));
    ValidExample();
    p.Submit();
    assert p.buttonLabel == SendingLabel && p.buttonDisabled && p.banners == [];
    p.Fire();
    assert p.now == SubmitLatency;
    assert p.buttonLabel == "Send Message" && !p.buttonDisabled;
    assert p.banners == [Banner(0, SuccessStyle, SuccessText)] && p.form == EmptyForm;
    assert p.pending == [Timer(SubmitLatency + BannerLifetime, ExpireBanner(0))];
    p.Fire();
    assert p.banners == [];
  }

  /** A two-character message: the message-length banner, the fields kept, the button enabled, nothing scheduled. */
  method ShortMessage() {
    var p := new Page([], 0, [], false, "Send Message");
    var fields := Form("Jo", "a@b.co", "Hi there", "hi");
    p.EditForm(fields);
    ShortMessageExample();
    p.Submit();
    assert p.banners == [Banner(0, ErrorStyle, MessageError)];
    assert p.form == fields && p.buttonLabel == "Send Message" && !p.buttonDisabled;
    assert p.pending == [];
  }

  /** A second toast replaces the first, and every timer of the first is left aimed at a detached node. */
  method ReplacedToast() {
    var p := new Page([], 0, [], false, "Send Message");
    p.ShowNotification("first", "info");
    p.ShowNotification("second", "info");
    assert p.toasts == [Toast(1, "second", false)];
    assert Stale(p.State(), SlideIn(0)) && Stale(p.State(), SlideOut(0)) && Stale(p.State(), RemoveToast(0));
    assert !Stale(p.State(), SlideIn(1)) by {
      assert p.toasts[0].id == 1;
    }
  }

  /** One toast: on screen after 100 ms, off screen after 5000 ms, gone 300 ms later. */
  method ToastLifecycle() {
    var p := new Page([], 0, [], false, "Send Message");
    p.ShowNotification("hello", "info");
    assert p.pending == [Timer(100, SlideIn(0)), Timer(5000, SlideOut(0))];
    assert NextDue(p.pending) == 0;
    assert HasToast(p.toasts, 0) by {
      assert p.toasts[0].id == 0;
    }
    p.Fire();
    assert p.now == 100;
    assert p.toasts == [Toast(0, "hello", true)];
    assert p.pending == [Timer(5000, SlideOut(0))];
    p.Fire();
    assert p.toasts == [Toast(0, "hello", false)] && p.pending == [Timer(5300, RemoveToast(0))];
    p.Fire();
    assert p.toasts == [] && p.pending == [] && p.now == ToastLifetime + ToastExitDelay;
  }

  const Filled := Form("Jo", "a@b.co", "Hi there", "This is a long enough message")

  /** The page at 4000 ms with an on-screen toast from 0 ms and a submission just started. */
  function SendingWithToast(): PageState {
    PageState(4000, [Timer(5000, SlideOut(0)), Timer(5500, FinishSubmit("Send Message"))], 1, Closed,
              [], [], [Toast(0, "hello", true)], SendingLabel, true, Filled, false, [], [])
  }

  /** The page at 4000 ms with an on-screen toast from 0 ms and the form filled in. */
  function FilledWithToast(): PageState {
    PageState(4000, [Timer(5000, SlideOut(0))], 1, Closed,
              [], [], [Toast(0, "hello", true)], "Send Message", false, Filled, false, [], [])
  }

  /** A toast at 0 ms, then the visitor fills in the form by 4000 ms. */
  method SubmitDuringToast() {
    var p := new Page([], 0, [], false, "Send Message");
    p.ShowNotification("hello", "info");
    assert NextDue(p.pending) == 0;
    p.Fire();
    assert p.now == 100 && p.pending == [Timer(5000, SlideOut(0))];
    p.Wait(4000);
    p.EditForm(Filled);
    assert p.State() == FilledWithToast();
    SubmitAt4000(p);
  }

  /** A valid submit at 4000 ms: its completion falls due at 5500, after the toast's slide-out. */
  method SubmitAt4000(p: Page)
    requires p.Valid() && p.State() == FilledWithToast()
    modifies p
  {
    ValidExample();
    p.Submit();
    assert p.State() == SendingWithToast();
    ToastLeavesWhileSending(p);
  }

  /** The slide-out at 5000 ms and the removal at 5300 ms both run while "Sending..." still shows. */
  method ToastLeavesWhileSending(p: Page)
    requires p.Valid() && p.State() == SendingWithToast()
    modifies p
  {
    assert NextDue(p.pending) == 0;
    p.Fire();
    assert p.now == 5000 && p.buttonLabel == SendingLabel && p.toasts == [Toast(0, "hello", false)];
    assert p.pending == [Timer(5500, FinishSubmit("Send Message")), Timer(5300, RemoveToast(0))];
    assert NextDue(p.pending) == 1;
    p.Fire();
    assert p.now == 5300 && p.toasts == [] && p.buttonLabel == SendingLabel && p.buttonDisabled;
  }

  /** The skills section intersecting in two batches schedules the bars once. */
  method SkillBarsOnce() {
    var p := new Page([], 0, ["90%", "75%"], true, "Send Message");
    assert Intersecting([true]) == 1;
    p.SkillsBatch([true]);
    p.SkillsBatch([true]);
    assert p.pending == BarTimers(SkillBarDelay, ["90%", "75%"]);
    assert p.pending == [Timer(200, GrowBar(0, "90%")), Timer(200, GrowBar(1, "75%"))];
    assert NextDue(p.pending) == 0;
    p.Fire();
    assert p.barWidths == [Some("90%"), None] && p.pending == [Timer(200, GrowBar(1, "75%"))];
    p.Fire();
    assert p.barWidths == [Some("90%"), Some("75%")];
  }

  /** Two intersecting entries in one batch schedule every bar twice. */
  method SkillBarsTwiceInOneBatch() {
    var p := new Page([], 0, ["90%"], true, "Send Message");
    assert Intersecting([true, true]) == 2 by {
      assert [true, true][..1] == [true];
    }
    p.SkillsBatch([true, true]);
    assert |p.pending| == 2 && !p.skillsObserved;
  }

  /** Opening the menu, then clicking a nav link, Escape on a closed menu, and a toast's close button. */
  method MenuRound() {
    var p := new Page(["#about", "#skills"], 0, [], false, "Send Message");
    p.Click(Hamburger);
    assert p.hamburgerActive && p.menuActive;
    p.Click(NavLink(1));
    assert !p.hamburgerActive && !p.menuActive;
    p.Click(Hamburger);
    p.ShowNotification("hello", "info");
    p.Click(ToastClose(0));
    assert p.toasts == [] && !p.hamburgerActive && !p.menuActive;
    p.KeyDown("Escape");
    assert !p.hamburgerActive && !p.menuActive;
  }
}
