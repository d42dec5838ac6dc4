/** The outcome of running a command: an exit code with its output and error text. */
module Api {

  /** Java's `int`. */
  type Int32 = x: int | -0x8000_0000 <= x < 0x8000_0000

  /** Immutable: a value is fixed when it is made. */
  datatype Result = Result(exitCode: Int32, output: string, error: string) {

    function GetExitCode(): (c: Int32)
      ensures c == exitCode
    {
      exitCode
    }

    function GetOutput(): (o: string)
      ensures o == output
    {
      output
    }

    function GetError(): (e: string)
      ensures e == error
    {
      error
    }

    /** A successful run: exit code 0, the given output, no error text. */
    static function Success(output: string): (r: Result)
      ensures r.GetExitCode() == 0 && r.GetOutput() == output && r.GetError() == ""
    {
      Result(0, output, "")
    }

    /** A failed run: the given code and error text, no output. */
    static function Error(code: Int32, error: string): (r: Result)
      ensures r.GetExitCode() == code && r.GetOutput() == "" && r.GetError() == error
    {
      Result(code, "", error)
    }
  }

  /** The getters give back exactly what the constructor was given. */
  lemma GettersReturnArguments(code: Int32, output: string, error: string)
    ensures Result(code, output, error).GetExitCode() == code
    ensures Result(code, output, error).GetOutput() == output
    ensures Result(code, output, error).GetError() == error
  {
  }

  /**
    The two factories agree only on the empty run with exit code 0; in
    particular a failure with a non-zero code is never a success.
   */
  lemma FactoriesDistinct(output: string, code: Int32, error: string)
    ensures Result.Success(output) == Result.Error(code, error) <==> code == 0 && output == "" && error == ""
  {
  }

  /** Each factory is determined by its arguments. */
  lemma FactoriesInjective(o1: string, o2: string, c1: Int32, c2: Int32, e1: string, e2: string)
    ensures Result.Success(o1) == Result.Success(o2) <==> o1 == o2
    ensures Result.Error(c1, e1) == Result.Error(c2, e2) <==> c1 == c2 && e1 == e2
  {
  }
}
