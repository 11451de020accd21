/** The process-wide reporter: a lazily created report and the "current test" that the
    static log methods write to. The HTML sink and its styling are outside the model: a
    report is the list of tests it created and the number of times it was flushed. */
module ExtentReportManager {

  datatype Level = Info | Pass | Fail

  datatype Event = Event(level: Level, message: string)

  /** One test node of the report; logging appends one event to it. */
  class ExtentTest {
    const name: string
    var events: seq<Event>

    constructor (name: string)
      ensures this.name == name && events == []
    {
      this.name := name;
      events := [];
    }

    method Log(level: Level, message: string)
      modifies this
      ensures events == old(events) + [Event(level, message)]
    {
      events := events + [Event(level, message)];
    }
  }

  /** The report: the tests it created, in creation order, and how often it was flushed. */
  class ExtentReports {
    var tests: seq<ExtentTest>
    var flushes: nat

    constructor ()
      ensures tests == [] && flushes == 0
    {
      tests := [];
      flushes := 0;
    }

    method CreateTest(name: string) returns (t: ExtentTest)
      modifies this
      ensures fresh(t) && t.name == name && t.events == []
      ensures tests == old(tests) + [t] && flushes == old(flushes)
    {
      t := new ExtentTest(name);
      tests := tests + [t];
    }

    method Flush()
      modifies this
      ensures tests == old(tests) && flushes == old(flushes) + 1
    {
      flushes := flushes + 1;
    }
  }

  /** The two static fields of the manager: `extent` (the report, created on first use) and
      `test` (the current test, replaced by every StartTest and never cleared). */
  class ReportManager {
    var extent: ExtentReports?
    var test: ExtentTest?

    /** A current test is always one the report created. */
    ghost predicate Valid()
      reads this, extent
    {
      test != null ==> extent != null && test in extent.tests
    }

    /** The state at class load: no report, no current test. */
    constructor ()
      ensures Valid() && extent == null && test == null
    {
      extent := null;
      test := null;
    }

    /** Creates the report only when none exists; every call returns that one report. */
    method GetInstance() returns (r: ExtentReports)
      requires Valid()
      modifies this
      ensures Valid()
      ensures r == extent && test == old(test)
      ensures old(extent) != null ==> r == old(extent)
      ensures old(extent) == null ==> fresh(r) && r.tests == [] && r.flushes == 0
    {
      if extent == null {
        extent := new ExtentReports();
      }
      r := extent;
    }

    /** Makes sure the report exists, then replaces the current test with a new test of the
        given name created in that report. */
    method StartTest(name: string)
      requires Valid()
      modifies this, extent
      ensures Valid() && extent != null && test != null
      ensures old(extent) != null ==> extent == old(extent)
      ensures fresh(test) && test.name == name && test.events == []
      ensures extent.tests == (if old(extent) == null then [] else old(extent.tests)) + [test]
      ensures extent.flushes == (if old(extent) == null then 0 else old(extent.flushes))
    {
      var report := GetInstance();
      test := report.CreateTest(name);
    }

    /** The current test: null before the first StartTest, otherwise the latest one started. */
    function GetTest(): (t: ExtentTest?)
      reads this, extent
      requires Valid()
      ensures t != null ==> extent != null && t in extent.tests
    {
      test
    }

    /** Appends one event to the current test, or does nothing when there is none. */
    method Log(level: Level, message: string)
      requires Valid()
      modifies test
      ensures Valid()
      ensures test != null ==> test.events == old(test.events) + [Event(level, message)]
    {
      if test != null {
        test.Log(level, message);
      }
    }

    method LogInfo(message: string)
      requires Valid()
      modifies test
      ensures Valid()
      ensures test != null ==> test.events == old(test.events) + [Event(Info, message)]
    {
      Log(Info, message);
    }

    method LogPass(message: string)
      requires Valid()
      modifies test
      ensures Valid()
      ensures test != null ==> test.events == old(test.events) + [Event(Pass, message)]
    {
      Log(Pass, message);
    }

    method LogFail(message: string)
      requires Valid()
      modifies test
      ensures Valid()
      ensures test != null ==> test.events == old(test.events) + [Event(Fail, message)]
    {
      Log(Fail, message);
    }

    /** Flushes the report if it exists; the current test stays as it was. */
    method EndTest()
      requires Valid()
      modifies extent
      ensures Valid()
      ensures extent != null ==> extent.tests == old(extent.tests) && extent.flushes == old(extent.flushes) + 1
    {
      if extent != null {
        extent.Flush();
      }
    }
  }

  /** The report lifecycle of one test class run: the report is created once, each test
      replaces the current test, logging goes to the latest test only, and ending a test
      keeps it current, so later logging still reaches it. */
  method RunLifecycle() returns (rm: ReportManager)
    ensures rm.Valid() && rm.extent != null && rm.test != null
    ensures |rm.extent.tests| == 2 && rm.test == rm.extent.tests[1]
    ensures rm.extent.tests[0].events == [] && rm.extent.tests[1].events == [Event(Pass, "after end")]
    ensures rm.extent.flushes == 1
  {
    rm := new ReportManager();
    rm.LogInfo("before any test");
    var report := rm.GetInstance();
    var again := rm.GetInstance();
    assert again == report;
    rm.StartTest("setUp");
    var first := rm.test;
    rm.StartTest("test");
    assert first != rm.test;
    rm.EndTest();
    rm.LogPass("after end");
  }
}
