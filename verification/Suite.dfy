/** What the registry hands to the runner: test files, their hooks and their tests. */
module Suite {
  import opened Prelude

  /** A function registered by a test file. */
  datatype Func = Func(id: nat)

  datatype Test = Test(name: string, func: Func, lineno: int)

  /** One item of the list built by lib/registry.lua. */
  datatype Source = Source(
    name: string, basename: string, dirname: string, realpath: string,
    beforeAll: Option<Func>, afterAll: Option<Func>,
    beforeEach: Option<Func>, afterEach: Option<Func>,
    tests: seq<Test>)

  function TotalTests(list: seq<Source>): nat {
    if list == [] then 0 else |list[0].tests| + TotalTests(list[1..])
  }
}
