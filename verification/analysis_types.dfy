/** The payloads the external analyzer returns, as plain immutable records. */
module AnalysisTypes {

  /** One lexeme: its type tag (`IDENTIFIER`, `FOR`, ...), its text and where it was found. */
  datatype Token = Token(tag: string, value: string, position: int, line: int, column: int)

  /** Result of `POST /analyze`; messages are in detection order. */
  datatype AnalysisResult = AnalysisResult(
    isValid: bool,
    tokens: seq<Token>,
    syntaxErrors: seq<string>,
    semanticInfo: seq<string>)

  /**
   * Measurements of one analyzer run. The times and sizes arrive as text
   * with a unit (`"1.5ms"`, `"12 KB"`); the counters are non-negative.
   * `cpuUsage` is carried along but no rule of the front end reads it.
   */
  datatype PerformanceMetrics = PerformanceMetrics(
    executionTime: string,
    memoryUsage: string,
    allocatedBytes: nat,
    totalAllocs: nat,
    gcCycles: nat,
    cpuUsage: real)

  /** Result of the optimized and unoptimized endpoints: an analysis plus its metrics. */
  datatype AnalysisWithMetrics = AnalysisWithMetrics(analysis: AnalysisResult, metrics: PerformanceMetrics)
}
