/** `UploadFilter.init`: the three init parameters, their defaults, and the
    error buffer that makes initialisation fail. */
module FilterConfig {
  import opened Wrappers
  import opened Decimal

  const MaxSizeParam: string := "maxSize"
  const SizeThresholdParam: string := "sizeThreshold"
  const TmpDirParam: string := "tmpDir"

  const DefaultMaxSize: int := 1000000
  const DefaultSizeThreshold: int := 4096

  /** The filter's fields: `long maxSize`, `int sizeThreshold`, `String tmpDir`. */
  datatype Config = Config(maxSize: int, sizeThreshold: int, tmpDir: string)

  /** What `init` appends to its error buffer: a separating blank, or the
      message for one rejected parameter (its name and value). */
  datatype BufferEntry =
    | Separator
    | InvalidLong(param: string, value: string)
    | InvalidInt(param: string, value: string)
    | InvalidDir(param: string, value: string)

  /** The fields and the error buffer while `init` runs. */
  datatype InitState = InitState(config: Config, buffer: seq<BufferEntry>)

  /** `maxSize`: parsed with `Long.parseLong`; an unparsable value keeps the
      field and appends a message. */
  function ReadMaxSize(s: InitState, initParams: map<string, string>): InitState {
    if MaxSizeParam !in initParams then s
    else
      var text := initParams[MaxSizeParam];
      match ParseLong(text)
      case Some(n) => s.(config := s.config.(maxSize := n))
      case None => s.(buffer := s.buffer + [InvalidLong(MaxSizeParam, text)])
  }

  /** `sizeThreshold`: parsed with `Integer.parseInt`; an unparsable value
      keeps the field and appends a blank and a message. */
  function ReadSizeThreshold(s: InitState, initParams: map<string, string>): InitState {
    if SizeThresholdParam !in initParams then s
    else
      var text := initParams[SizeThresholdParam];
      match ParseInt(text)
      case Some(n) => s.(config := s.config.(sizeThreshold := n))
      case None => s.(buffer := s.buffer + [Separator, InvalidInt(SizeThresholdParam, text)])
  }

  /** `tmpDir`: always taken; if the directory is not writable, a blank and
      a message are appended. Writability is a filesystem query, supplied. */
  function ReadTmpDir(s: InitState, initParams: map<string, string>, tmpDirWritable: bool): InitState {
    if TmpDirParam !in initParams then s
    else
      var dir := initParams[TmpDirParam];
      var s' := s.(config := s.config.(tmpDir := dir));
      if tmpDirWritable then s' else s'.(buffer := s'.buffer + [Separator, InvalidDir(TmpDirParam, dir)])
  }

  /** The fields and buffer after the three parameters are read, starting
      from the defaults (`defaultTmpDir` is the `java.io.tmpdir` property). */
  function InitFields(initParams: map<string, string>, defaultTmpDir: string, tmpDirWritable: bool): InitState {
    var start := InitState(Config(DefaultMaxSize, DefaultSizeThreshold, defaultTmpDir), []);
    ReadTmpDir(ReadSizeThreshold(ReadMaxSize(start, initParams), initParams), initParams, tmpDirWritable)
  }

  /** `init`: throws with the buffer's text when the buffer is not empty. */
  function Init(initParams: map<string, string>, defaultTmpDir: string, tmpDirWritable: bool): (r: Result<Config, seq<BufferEntry>>)
    ensures r.Failure? ==> |r.error| > 0
  {
    var s := InitFields(initParams, defaultTmpDir, tmpDirWritable);
    if |s.buffer| > 0 then Failure(s.buffer) else Success(s.config)
  }

  /** Whether a parameter is absent or acceptable. */
  predicate MaxSizeAccepted(initParams: map<string, string>) {
    MaxSizeParam !in initParams || ParseLong(initParams[MaxSizeParam]).Some?
  }

  predicate SizeThresholdAccepted(initParams: map<string, string>) {
    SizeThresholdParam !in initParams || ParseInt(initParams[SizeThresholdParam]).Some?
  }

  predicate TmpDirAccepted(initParams: map<string, string>, tmpDirWritable: bool) {
    TmpDirParam !in initParams || tmpDirWritable
  }

  /** `init` succeeds exactly when every parameter given is acceptable; the
      fields then hold the parsed values, or the defaults where absent. */
  lemma InitSucceedsIff(initParams: map<string, string>, defaultTmpDir: string, tmpDirWritable: bool)
    ensures var r := Init(initParams, defaultTmpDir, tmpDirWritable);
      && (r.Success? <==> MaxSizeAccepted(initParams) && SizeThresholdAccepted(initParams) && TmpDirAccepted(initParams, tmpDirWritable))
      && (r.Success? ==>
            && r.value.maxSize == (if MaxSizeParam in initParams then ParseLong(initParams[MaxSizeParam]).value else DefaultMaxSize)
            && r.value.sizeThreshold == (if SizeThresholdParam in initParams then ParseInt(initParams[SizeThresholdParam]).value else DefaultSizeThreshold)
            && r.value.tmpDir == (if TmpDirParam in initParams then initParams[TmpDirParam] else defaultTmpDir))
  {
  }

  /** With no init parameters the defaults stand: 1,000,000 bytes and 4,096 bytes. */
  lemma InitDefaults(defaultTmpDir: string, tmpDirWritable: bool)
    ensures Init(map[], defaultTmpDir, tmpDirWritable) == Success(Config(1000000, 4096, defaultTmpDir))
  {
  }

  /** An unparsable `maxSize` leaves the field at its default, puts its
      message in the buffer, and makes `init` throw. */
  lemma UnparsableMaxSize(initParams: map<string, string>, defaultTmpDir: string, tmpDirWritable: bool)
    requires MaxSizeParam in initParams && ParseLong(initParams[MaxSizeParam]).None?
    ensures var s := InitFields(initParams, defaultTmpDir, tmpDirWritable);
      && s.config.maxSize == DefaultMaxSize
      && InvalidLong(MaxSizeParam, initParams[MaxSizeParam]) in s.buffer
      && Init(initParams, defaultTmpDir, tmpDirWritable).Failure?
  {
  }

  /** An unparsable `sizeThreshold` leaves the field at its default, puts
      its message in the buffer, and makes `init` throw. */
  lemma UnparsableSizeThreshold(initParams: map<string, string>, defaultTmpDir: string, tmpDirWritable: bool)
    requires SizeThresholdParam in initParams && ParseInt(initParams[SizeThresholdParam]).None?
    ensures var s := InitFields(initParams, defaultTmpDir, tmpDirWritable);
      && s.config.sizeThreshold == DefaultSizeThreshold
      && InvalidInt(SizeThresholdParam, initParams[SizeThresholdParam]) in s.buffer
      && Init(initParams, defaultTmpDir, tmpDirWritable).Failure?
  {
  }

  /** A `maxSize` written as `String.valueOf` writes a long configures exactly that long. */
  lemma MaxSizeTextRoundTrip(n: int, defaultTmpDir: string, tmpDirWritable: bool)
    requires LongMin <= n <= LongMax
    ensures Init(map[MaxSizeParam := LongToString(n)], defaultTmpDir, tmpDirWritable)
         == Success(Config(n, DefaultSizeThreshold, defaultTmpDir))
  {
    LongTextRoundTrip(n);
  }

  /** A `sizeThreshold` written as `String.valueOf` writes an int configures exactly that int. */
  lemma SizeThresholdTextRoundTrip(n: int, defaultTmpDir: string, tmpDirWritable: bool)
    requires IntMin <= n <= IntMax
    ensures Init(map[SizeThresholdParam := LongToString(n)], defaultTmpDir, tmpDirWritable)
         == Success(Config(DefaultMaxSize, n, defaultTmpDir))
  {
    IntTextRoundTrip(n);
  }
}
