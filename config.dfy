/** The benchmark configuration (Bconfig) and the distribution names that
    next() recognises. Floating-point parameters are modelled as exact reals. */
module BenchConfig {
  import opened GoRuntime

  /** One field per Bconfig field of the benchmark. */
  datatype Bconfig = Bconfig(
    T: int,                      // running time in seconds; > 0 selects the timed run
    N: int,                      // number of requests of the counted run
    K: int,                      // key space
    W: real,                     // write ratio
    Throttle: int,               // requests per second, unused if 0
    Concurrency: int,            // number of simulated clients
    Distribution: string,        // name of the key distribution
    LinearizabilityCheck: bool,
    Conflicts: int,              // percentage of conflicting keys
    Min: int,                    // smallest key
    Mu: real,                    // mean of the normal distribution
    Sigma: real,                 // standard deviation of the normal distribution
    Move: bool,                  // whether Mu drifts during the run
    Speed: int,                  // milliseconds between two moves of Mu
    ZipfianS: real,
    ZipfianV: real,
    Lambda: real,                // rate of the exponential distribution
    Size: int                    // payload size in bytes
  )

  /** The key distributions next() has a branch for. */
  datatype Distribution = Order | Uniform | Conflict | Normal | Zipfan | Exponential

  /** The switch of next(): exact, case-sensitive string comparison. The Zipf
      branch is selected by the spelling "zipfan" only; any other name falls
      through to the fatal default branch. */
  function ParseDistribution(name: string): (d: Option<Distribution>)
    ensures d == Some(Order) <==> name == "order"
    ensures d == Some(Uniform) <==> name == "uniform"
    ensures d == Some(Conflict) <==> name == "conflict"
    ensures d == Some(Normal) <==> name == "normal"
    ensures d == Some(Zipfan) <==> name == "zipfan"
    ensures d == Some(Exponential) <==> name == "exponential"
  {
    if name == "order" then Some(Order)
    else if name == "uniform" then Some(Uniform)
    else if name == "conflict" then Some(Conflict)
    else if name == "normal" then Some(Normal)
    else if name == "zipfan" then Some(Zipfan)
    else if name == "exponential" then Some(Exponential)
    else None
  }

  /** The conventional spelling "zipfian" is not recognised. */
  lemma ZipfianSpellingIsUnknown()
    ensures ParseDistribution("zipfian") == None
    ensures ParseDistribution("Zipfan") == None
  {
  }

  /** The default configuration. */
  function DefaultBConfig(): (c: Bconfig)
    // a timed run of one minute over 1000 keys, one client, writes only
    ensures c.T == 60 && c.N == 0 && c.K == 1000 && c.Concurrency == 1 && c.W == 1.0
    // uniform keys, no throttling, no drift of the mean
    ensures ParseDistribution(c.Distribution) == Some(Uniform) && c.Throttle == 0 && !c.Move
    // were conflict mode selected, every draw of rand.Intn(100) would hit key 0
    ensures c.Conflicts == 100
  {
    Bconfig(
      T := 60,
      N := 0,
      K := 1000,
      W := 1.0,
      Throttle := 0,
      Concurrency := 1,
      Distribution := "uniform",
      LinearizabilityCheck := true,
      Conflicts := 100,
      Min := 0,
      Mu := 0.0,
      Sigma := 60.0,
      Move := false,
      Speed := 500,
      ZipfianS := 2.0,
      ZipfianV := 1.0,
      Lambda := 0.01,
      Size := 128
    )
  }
}
