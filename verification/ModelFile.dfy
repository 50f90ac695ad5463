/** The text form of a network: dump_rnn.py writes it, rnn_reader.c reads it back. */
module ModelFile {
  import opened Options
  import opened Rnn

  // ---- fscanf ----

  predicate IsSpace(c: char)
  {
    c in {' ', '\t', '\n', '\r', '\U{0B}', '\U{0C}'}
  }

  predicate IsDigit(c: char)
  {
    '0' <= c <= '9'
  }

  /** s without its leading white space. */
  function Trim(s: string): (r: string)
    ensures |r| <= |s| && (r != "" ==> !IsSpace(r[0]))
  {
    if s != "" && IsSpace(s[0]) then Trim(s[1..]) else s
  }

  /** The longest prefix of digits. */
  function DigitCount(s: string): (n: nat)
    ensures n <= |s|
  {
    if s != "" && IsDigit(s[0]) then 1 + DigitCount(s[1..]) else 0
  }

  function DigitValue(c: char): int
  {
    c as int - '0' as int
  }

  /** The number that a string of digits denotes. */
  function Value(s: string): int
  {
    if s == "" then 0 else 10 * Value(s[..|s| - 1]) + DigitValue(s[|s| - 1])
  }

  /** A number and the text after it. */
  function ScanDigits(s: string): Option<(int, string)>
  {
    var n := DigitCount(s);
    if n == 0 then None else Some((Value(s[..n]), s[n..]))
  }

  /** fscanf(f, "%d", &in): white space, an optional sign, digits. */
  function ScanInt(s: string): Option<(int, string)>
  {
    var t := Trim(s);
    if t != "" && (t[0] == '-' || t[0] == '+') then
      match ScanDigits(t[1..])
      case None => None
      case Some(r) => Some((if t[0] == '-' then -r.0 else r.0, r.1))
    else ScanDigits(t)
  }

  // ---- '{}'.format ----

  function Digit(d: int): char
    requires 0 <= d < 10
  {
    ('0' as int + d) as char
  }

  /** The decimal digits of n. */
  function Decimal(n: nat): (s: string)
    ensures |s| > 0
  {
    if n < 10 then [Digit(n)] else Decimal(n / 10) + [Digit(n % 10)]
  }

  function IntText(v: int): (s: string)
    ensures |s| > 0
  {
    if v < 0 then "-" + Decimal(-v) else Decimal(v)
  }

  // ---- Printing a number and scanning it ----

  predicate AllDigits(s: string)
  {
    forall i :: 0 <= i < |s| ==> IsDigit(s[i])
  }

  lemma {:induction false} DecimalIs(n: nat)
    ensures AllDigits(Decimal(n)) && Value(Decimal(n)) == n
  {
    if n >= 10 {
      DecimalIs(n / 10);
      var s := Decimal(n);
      assert s[..|s| - 1] == Decimal(n / 10);
    } else {
      var s := Decimal(n);
      assert s[..|s| - 1] == "";
      assert Value("") == 0;
    }
  }

  /** A separator: nothing more to read, or something that is no digit. */
  predicate Ends(rest: string)
  {
    rest == "" || !IsDigit(rest[0])
  }

  lemma {:induction false} DigitsFirst(d: string, rest: string)
    requires AllDigits(d) && Ends(rest)
    ensures DigitCount(d + rest) == |d|
  {
    if d == "" {
      assert d + rest == rest;
    } else {
      assert (d + rest)[1..] == d[1..] + rest;
      DigitsFirst(d[1..], rest);
    }
  }

  lemma ScanDecimal(n: nat, rest: string)
    requires Ends(rest)
    ensures ScanDigits(Decimal(n) + rest) == Some((n, rest))
  {
    var d := Decimal(n);
    DecimalIs(n);
    DigitsFirst(d, rest);
    assert (d + rest)[..|d|] == d && (d + rest)[|d|..] == rest;
  }

  /** What is printed is read back, and reading stops right behind it. */
  lemma ScanPrinted(s: string, v: int, rest: string)
    requires Trim(s) == IntText(v) + rest && Ends(rest)
    ensures ScanInt(s) == Some((v, rest))
  {
    hide Trim;
    var t := Trim(s);
    if v < 0 {
      assert t[1..] == Decimal(-v) + rest;
      ScanDecimal(-v, rest);
    } else {
      DecimalIs(v);
      assert IsDigit(t[0]);
      ScanDecimal(v, rest);
    }
  }

  lemma NotSpace(v: int, rest: string)
    ensures Trim(IntText(v) + rest) == IntText(v) + rest
  {
    if v >= 0 {
      DecimalIs(v);
      assert IsDigit(IntText(v)[0]);
    }
  }

  /** A number and one separator: the scan stops at the separator, which the next scan skips. */
  lemma ScanField(s: string, v: int, sep: char, rest: string)
    requires IsSpace(sep) && Trim(s) == Trim(IntText(v) + ([sep] + rest))
    ensures ScanInt(s) == Some((v, [sep] + rest)) && Trim([sep] + rest) == Trim(rest)
  {
    NotSpace(v, [sep] + rest);
    NoDigit(sep);
    ScanPrinted(s, v, [sep] + rest);
    assert ([sep] + rest)[1..] == rest;
  }

  lemma NoDigit(c: char)
    requires IsSpace(c)
    ensures !IsDigit(c)
  {
  }

  // ---- Quantisation ----

  /** round() of Python 2: halves go away from zero. */
  function Round(x: real): int
  {
    if x >= 0.0 then (x + 0.5).Floor else -(-x + 0.5).Floor
  }

  lemma HalvesAway(k: nat)
    ensures Round(k as real + 0.5) == k + 1 && Round(-(k as real + 0.5)) == -(k + 1) && Round(k as real) == k
  {
  }

  /** min(127, int(round(256*v))). */
  function Quantise(v: real): int
  {
    if Round(256.0 * v) > 127 then 127 else Round(256.0 * v)
  }

  /** A printed weight is within half a step of the trained one exactly when it does not exceed 127.5 / 256. */
  lemma QuantiseError(v: real)
    ensures -0.5 <= Quantise(v) as real - 256.0 * v <= 0.5 <==> 256.0 * v <= 127.5
  {
  }

  /** values[i] = in: the conversion from int to signed char. */
  function SChar(v: int): (r: int)
    ensures -128 <= r < 128 && (r - v) % 256 == 0
  {
    (v + 128) % 256 - 128
  }

  function Quantised(v: seq<real>): (q: seq<int>)
    ensures |q| == |v| && forall i :: 0 <= i < |v| ==> q[i] == Quantise(v[i])
  {
    seq(|v|, i requires 0 <= i < |v| => Quantise(v[i]))
  }

  function SChars(v: seq<int>): (q: seq<int>)
    ensures |q| == |v| && forall i :: 0 <= i < |v| ==> q[i] == SChar(v[i])
  {
    seq(|v|, i requires 0 <= i < |v| => SChar(v[i]))
  }

  // ---- The printer ----

  /** One layer of the trained network: its kernel has inputs rows and cols columns; weights are kernel, recurrent
      kernel if there is one, bias, each flattened. */
  datatype KerasLayer = KerasLayer(inputs: nat, cols: nat, activation: string, weights: seq<seq<real>>)

  /** The text of a vector, followed by rest. */
  function VectorOn(q: seq<int>, rest: string): string
  {
    if q == [] then "\n" + rest
    else if |q| == 1 then IntText(q[0]) + ("\n" + rest)
    else IntText(q[0]) + (" " + VectorOn(q[1..], rest))
  }

  function Neurons(l: KerasLayer): nat
  {
    if |l.weights| > 2 then l.cols / 3 else l.cols
  }

  function ActivationCode(a: string): int
  {
    if a == "SIGMOID" then 1 else if a == "RELU" then 2 else 0
  }

  /** The text of a layer, followed by rest. */
  function LayerOn(l: KerasLayer, rest: string): string
    requires |l.weights| > 0
  {
    var bias := VectorOn(Quantised(l.weights[|l.weights| - 1]), rest);
    var recurrent := if |l.weights| > 2 then VectorOn(Quantised(l.weights[1]), bias) else bias;
    IntText(l.inputs) + (" " + (IntText(Neurons(l)) + (" " + (IntText(ActivationCode(l.activation))
      + ("\n" + VectorOn(Quantised(l.weights[0]), recurrent))))))
  }

  const HEADER := "rnnoise-nu model file version "

  /** The text of all layers that have weights. */
  function LayersOn(layers: seq<KerasLayer>): string
  {
    if layers == [] then ""
    else if |layers[0].weights| > 0 then LayerOn(layers[0], LayersOn(layers[1..]))
    else LayersOn(layers[1..])
  }

  function ModelText(layers: seq<KerasLayer>): string
  {
    HEADER + ("1" + ("\n" + LayersOn(layers)))
  }

  lemma {:induction false} VectorThen(q: seq<int>, rest: string, more: string)
    ensures VectorOn(q, rest) + more == VectorOn(q, rest + more)
  {
    if |q| <= 1 {
      assert "\n" + rest + more == "\n" + (rest + more);
      if |q| == 1 {
        Regroup(IntText(q[0]), "\n", rest, more);
      }
    } else {
      VectorThen(q[1..], rest, more);
      Regroup(IntText(q[0]), " ", VectorOn(q[1..], rest), more);
    }
  }

  lemma Regroup(a: string, b: string, c: string, d: string)
    ensures a + (b + c) + d == a + (b + (c + d))
  {
    assert b + c + d == b + (c + d);
    assert a + (b + c) + d == a + (b + c + d);
  }

  lemma LayerThen(l: KerasLayer, rest: string, more: string)
    requires |l.weights| > 0
    ensures LayerOn(l, rest) + more == LayerOn(l, rest + more)
  {
    hide IntText, VectorOn, Quantised, Neurons, ActivationCode;
    var last := Quantised(l.weights[|l.weights| - 1]);
    var bias := VectorOn(last, rest);
    VectorThen(last, rest, more);
    var recurrent := bias;
    if |l.weights| > 2 {
      recurrent := VectorOn(Quantised(l.weights[1]), bias);
      VectorThen(Quantised(l.weights[1]), bias, more);
    }
    VectorThen(Quantised(l.weights[0]), recurrent, more);
    var kernel := VectorOn(Quantised(l.weights[0]), recurrent);
    var code := IntText(ActivationCode(l.activation)) + ("\n" + kernel);
    Regroup(IntText(ActivationCode(l.activation)), "\n", kernel, more);
    Regroup(IntText(Neurons(l)), " ", code, more);
    Regroup(IntText(l.inputs), " ", IntText(Neurons(l)) + (" " + code), more);
  }

  /** The text file ft of dump_rnn.py. */
  class TextFile {
    var text: string

    constructor ()
      ensures text == ""
    {
      text := "";
    }

    method Write(s: string)
      modifies this
      ensures text == old(text) + s
    {
      text := text + s;
    }

    /** The writes of printVector (dump_rnn.py:15-34) to ft. */
    method PrintVector(v: seq<real>)
      modifies this
      ensures text == old(text) + VectorOn(Quantised(v), "")
    {
      hide IntText, Quantise;
      ghost var q := Quantised(v);
      var i := 0;
      while i < |v|
        invariant 0 <= i <= |v| && (i == |v| ==> v == [])
        invariant text + VectorOn(q[i..], "") == old(text) + VectorOn(q, "")
      {
        ghost var before := text;
        Write(IntText(Quantise(v[i])));
        if i == |v| - 1 {
          OneLeft(q, i, before);
          break;
        }
        Write(" ");
        MoreLeft(q, i, before);
        i := i + 1;
      }
      Write("\n");
    }

    /** The writes of printLayer (dump_rnn.py:36-52) to ft. */
    method PrintLayer(l: KerasLayer)
      requires |l.weights| > 0
      modifies this
      ensures text == old(text) + LayerOn(l, "")
    {
      hide IntText, VectorOn, Quantised;
      ghost var was := text;
      Write(IntText(l.inputs));
      Write(" ");
      Write(IntText(if |l.weights| > 2 then l.cols / 3 else l.cols));
      Write(" ");
      if l.activation == "SIGMOID" {
        CodeText(1);
        Write("1\n");
      } else if l.activation == "RELU" {
        CodeText(2);
        Write("2\n");
      } else {
        CodeText(0);
        Write("0\n");
      }
      ghost var head := text;
      PrintVector(l.weights[0]);
      if |l.weights| > 2 {
        PrintVector(l.weights[1]);
      }
      PrintVector(l.weights[|l.weights| - 1]);
      PrintedLayer(l, was, head, text);
    }

    /** The text output of the module-level code (dump_rnn.py:83-94). */
    method DumpModel(layers: seq<KerasLayer>)
      requires text == ""
      modifies this
      ensures text == ModelText(layers)
    {
      hide LayerOn;
      Write("rnnoise-nu model file version 1\n");
      Started(layers, text);
      var i := 0;
      while i < |layers|
        invariant 0 <= i <= |layers|
        invariant text + LayersOn(layers[i..]) == ModelText(layers)
      {
        NextLayer(layers, i, text);
        if |layers[i].weights| > 0 {
          PrintLayer(layers[i]);
        }
        i := i + 1;
      }
      assert text + "" == text;
    }
  }

  lemma OneLeft(q: seq<int>, i: nat, before: string)
    requires i == |q| - 1
    ensures before + IntText(q[i]) + "\n" == before + VectorOn(q[i..], "")
  {
    hide IntText;
    assert q[i..] == [q[i]];
    assert VectorOn([q[i]], "") == IntText(q[i]) + "\n";
    assert before + IntText(q[i]) + "\n" == before + (IntText(q[i]) + "\n");
  }

  lemma MoreLeft(q: seq<int>, i: nat, before: string)
    requires i < |q| - 1
    ensures before + IntText(q[i]) + " " + VectorOn(q[i + 1..], "") == before + VectorOn(q[i..], "")
  {
    hide IntText;
    var t := VectorOn(q[i + 1..], "");
    assert q[i..][1..] == q[i + 1..];
    assert before + IntText(q[i]) + " " + t == before + (IntText(q[i]) + (" " + t));
  }

  lemma CodeText(d: nat)
    requires d < 10
    ensures IntText(d) + "\n" == [Digit(d), '\n']
  {
  }

  /** The pieces that PrintLayer writes are the layer's text. */
  lemma PrintedLayer(l: KerasLayer, was: string, head: string, now: string)
    requires |l.weights| > 0
    requires head == was + IntText(l.inputs) + " " + IntText(Neurons(l)) + " "
                     + (IntText(ActivationCode(l.activation)) + "\n")
    requires now == (if |l.weights| > 2
                  then head + VectorOn(Quantised(l.weights[0]), "") + VectorOn(Quantised(l.weights[1]), "")
                     else head + VectorOn(Quantised(l.weights[0]), ""))
             + VectorOn(Quantised(l.weights[|l.weights| - 1]), "")
    ensures now == was + LayerOn(l, "")
  {
    hide IntText, VectorOn, Quantised, Neurons, ActivationCode;
    var bias := VectorOn(Quantised(l.weights[|l.weights| - 1]), "");
    var kernel := Quantised(l.weights[0]);
    var tail := bias;
    if |l.weights| > 2 {
      var mid := VectorOn(Quantised(l.weights[1]), "");
      VectorThen(Quantised(l.weights[1]), "", bias);
      tail := mid + bias;
      assert head + VectorOn(kernel, "") + mid + bias == head + VectorOn(kernel, "") + (mid + bias);
    }
    assert "" + bias == bias && "" + tail == tail;
    VectorThen(kernel, "", tail);
    assert now == head + (VectorOn(kernel, "") + tail);
    var body := VectorOn(kernel, tail);
    HeadThen(was, IntText(l.inputs), IntText(Neurons(l)), IntText(ActivationCode(l.activation)), body);
  }

  lemma HeadThen(was: string, a: string, b: string, c: string, body: string)
    ensures was + a + " " + b + " " + (c + "\n") + body == was + (a + (" " + (b + (" " + (c + ("\n" + body))))))
  {
    assert (c + "\n") + body == c + ("\n" + body);
    var t := c + ("\n" + body);
    assert was + a + " " + b + " " + (c + "\n") + body == was + a + " " + b + " " + t;
    assert b + " " + t == b + (" " + t);
    assert was + a + " " + b + " " + t == was + a + " " + (b + (" " + t));
    var u := b + (" " + t);
    assert was + a + " " + u == was + (a + (" " + u));
  }

  lemma Started(layers: seq<KerasLayer>, text: string)
    requires text == "rnnoise-nu model file version 1\n"
    ensures text + LayersOn(layers[0..]) == ModelText(layers)
  {
    hide LayersOn;
    assert layers[0..] == layers;
    assert HEADER + "1\n" == text;
    var t := LayersOn(layers);
    assert "1" + ("\n" + t) == "1\n" + t;
    assert HEADER + ("1\n" + t) == HEADER + "1\n" + t;
  }

  lemma NextLayer(layers: seq<KerasLayer>, i: nat, text: string)
    requires i < |layers|
    ensures text + LayersOn(layers[i..])
         == (if |layers[i].weights| > 0 then text + LayerOn(layers[i], "") else text) + LayersOn(layers[i + 1..])
  {
    hide LayerOn;
    var t := LayersOn(layers[i + 1..]);
    assert layers[i..][1..] == layers[i + 1..];
    if |layers[i].weights| > 0 {
      LayerThen(layers[i], "", t);
      assert "" + t == t;
      assert text + LayerOn(layers[i], "") + t == text + (LayerOn(layers[i], "") + t);
    }
  }

  // ---- The reader ----

  /** The literal part of a scanf format: white space matches any white space, any other character itself. */
  function MatchFormat(fmt: string, s: string): Option<string>
  {
    if fmt == "" then Some(s)
    else if IsSpace(fmt[0]) then MatchFormat(fmt[1..], Trim(s))
    else if s != "" && s[0] == fmt[0] then MatchFormat(fmt[1..], s[1..])
    else None
  }

  /** INPUT_VAL. */
  function ReadVal(s: string): Option<(nat, string)>
  {
    match ScanInt(s)
    case None => None
    case Some(r) => if r.0 < 0 || r.0 > 128 then None else Some((r.0 as nat, r.1))
  }

  function ActivationOf(code: int): Activation
  {
    if code == 1 then Sigmoid else if code == 2 then Relu else Tanh
  }

  /** INPUT_ARRAY of n values. */
  function ReadArray(s: string, n: nat): Option<(seq<int>, string)>
    decreases n
  {
    if n == 0 then Some(([], s))
    else
      match ScanInt(s)
      case None => None
      case Some(r) =>
        match ReadArray(r.1, n - 1)
        case None => None
        case Some(t) => Some(([SChar(r.0)] + t.0, t.1))
  }

  datatype Shape = Shape(inputs: nat, neurons: nat, activation: Activation)

  /** The three fields both kinds of layers begin with. */
  function ReadShape(s: string): Option<(Shape, string)>
  {
    match ReadVal(s)
    case None => None
    case Some(a) =>
      match ReadVal(a.1)
      case None => None
      case Some(b) =>
        match ReadVal(b.1)
        case None => None
        case Some(c) => Some((Shape(a.0, b.0, ActivationOf(c.0)), c.1))
  }

  /** The entries of a matrix. */
  function Cells(rows: nat, cols: nat): nat
  {
    rows * cols
  }

  /** INPUT_DENSE. */
  function ReadDense(s: string): Option<(DenseLayer, string)>
  {
    match ReadShape(s)
    case None => None
    case Some(h) =>
      match ReadArray(h.1, Cells(h.0.inputs, h.0.neurons))
      case None => None
      case Some(w) =>
        match ReadArray(w.1, h.0.neurons)
        case None => None
        case Some(b) => Some((DenseLayer(b.0, w.0, h.0.inputs, h.0.neurons, h.0.activation), b.1))
  }

  /** INPUT_GRU. */
  function ReadGru(s: string): Option<(GRULayer, string)>
  {
    match ReadShape(s)
    case None => None
    case Some(h) =>
      match ReadArray(h.1, Cells(h.0.inputs, h.0.neurons) * 3)
      case None => None
      case Some(w) =>
        match ReadArray(w.1, Cells(h.0.neurons, h.0.neurons) * 3)
        case None => None
        case Some(u) =>
          match ReadArray(u.1, h.0.neurons * 3)
          case None => None
          case Some(b) => Some((GRULayer(b.0, w.0, u.0, h.0.inputs, h.0.neurons, h.0.activation), b.1))
  }

  /** The six layers in the order of the file. */
  function ReadLayers(s: string): Option<RNNModel>
  {
    match ReadDense(s)
    case None => None
    case Some(inputDense) =>
      match ReadGru(inputDense.1)
      case None => None
      case Some(vadGru) =>
        match ReadGru(vadGru.1)
        case None => None
        case Some(noiseGru) =>
          match ReadGru(noiseGru.1)
          case None => None
          case Some(denoiseGru) =>
            match ReadDense(denoiseGru.1)
            case None => None
            case Some(denoiseOutput) =>
              match ReadDense(denoiseOutput.1)
              case None => None
              case Some(vadOutput) =>
                Some(RNNModel(inputDense.0, vadGru.0, noiseGru.0, denoiseGru.0, denoiseOutput.0, vadOutput.0))
  }

  function ReadVersion(s: string): Option<(int, string)>
  {
    match MatchFormat(HEADER, s)
    case None => None
    case Some(t) => ScanInt(t)
  }

  function ReadModel(s: string): Option<RNNModel>
  {
    match ReadVersion(s)
    case None => None
    case Some(v) => if v.0 == 1 then ReadLayers(Trim(v.1)) else None
  }

  /** The FILE that rnnoise_model_from_file reads. After a failed scan nothing more is read from it. */
  class InputFile {
    var rest: string

    constructor (s: string)
      ensures rest == s
    {
      rest := s;
    }

    /** fscanf(f, "%d", &in) == 1 */
    method ScanD() returns (ok: bool, v: int)
      modifies this
      ensures ok == ScanInt(old(rest)).Some?
      ensures ok ==> Some((v, rest)) == ScanInt(old(rest))
    {
      match ScanInt(rest)
      case None =>
        ok, v := false, 0;
      case Some(r) =>
        ok, v, rest := true, r.0, r.1;
    }

    /** INPUT_VAL (rnn_reader.c:72-78). */
    method InputVal() returns (ok: bool, v: nat)
      modifies this
      ensures ok == ReadVal(old(rest)).Some?
      ensures ok ==> Some((v, rest)) == ReadVal(old(rest))
    {
      var n;
      ok, n := ScanD();
      v := 0;
      if !ok || n < 0 || n > 128 {
        return false, 0;
      }
      v := n;
    }

    /** INPUT_ARRAY (rnn_reader.c:95-109). */
    method InputArray(len: nat) returns (ok: bool, values: array<int>)
      modifies this
      ensures fresh(values) && values.Length == len
      ensures ok == ReadArray(old(rest), len).Some?
      ensures ok ==> Some((values[..], rest)) == ReadArray(old(rest), len)
    {
      hide ScanInt, ReadArray, Resumed, SChar;
      values := new int[len];
      ghost var s := rest;
      var i := 0;
      ResumeEnds(s, len, values[..0], s);
      while i < len
        invariant 0 <= i <= len
        invariant Resumed(s, len, values[..i], rest)
        modifies this, values
      {
        ghost var before, done := rest, values[..i];
        var v;
        ok, v := ScanD();
        ResumeNext(s, len, done, before);
        if !ok {
          return;
        }
        values[i] := SChar(v);
        i := i + 1;
        assert values[..i] == done + [SChar(v)];
      }
      assert values[..i] == values[..];
      ResumeEnds(s, len, values[..], rest);
      ok := true;
    }

    /** The first lines of INPUT_DENSE and INPUT_GRU and INPUT_ACTIVATION (rnn_reader.c:80-93, 112-115 and 121-124). */
    method InputShape() returns (ok: bool, h: Shape)
      modifies this
      ensures ok == ReadShape(old(rest)).Some?
      ensures ok ==> Some((h, rest)) == ReadShape(old(rest))
    {
      hide ReadVal;
      var inputs, neurons, code;
      h := Shape(0, 0, Tanh);
      ok, inputs := InputVal();
      if !ok { return; }
      ok, neurons := InputVal();
      if !ok { return; }
      ok, code := InputVal();
      if !ok { return; }
      h := Shape(inputs, neurons, match code { case 1 => Sigmoid case 2 => Relu case _ => Tanh });
    }

    /** INPUT_DENSE (rnn_reader.c:111-118). */
    method InputDense() returns (r: Option<DenseLayer>)
      modifies this
      ensures r.Some? == ReadDense(old(rest)).Some?
      ensures r.Some? ==> Some((r.value, rest)) == ReadDense(old(rest))
    {
      hide ReadShape, ReadArray;
      var ok, h := InputShape();
      if !ok { return None; }
      var weights, bias;
      ok, weights := InputArray(h.inputs * h.neurons);
      if !ok { return None; }
      ok, bias := InputArray(h.neurons);
      if !ok { return None; }
      return Some(DenseLayer(bias[..], weights[..], h.inputs, h.neurons, h.activation));
    }

    /** INPUT_GRU (rnn_reader.c:120-128). */
    method InputGru() returns (r: Option<GRULayer>)
      modifies this
      ensures r.Some? == ReadGru(old(rest)).Some?
      ensures r.Some? ==> Some((r.value, rest)) == ReadGru(old(rest))
    {
      hide ReadShape, ReadArray;
      var ok, h := InputShape();
      if !ok { return None; }
      var weights, recurrent, bias;
      ok, weights := InputArray(h.inputs * h.neurons * 3);
      if !ok { return None; }
      ok, recurrent := InputArray(h.neurons * h.neurons * 3);
      if !ok { return None; }
      ok, bias := InputArray(h.neurons * 3);
      if !ok { return None; }
      return Some(GRULayer(bias[..], weights[..], recurrent[..], h.inputs, h.neurons, h.activation));
    }

    /** rnnoise_model_from_file (rnn_reader.c:45-138). */
    method ModelFromFile() returns (r: Option<RNNModel>)
      modifies this
      ensures r == ReadModel(old(rest))
    {
      hide ReadDense, ReadGru, ScanInt, MatchFormat, Trim;
      match MatchFormat(HEADER, rest) {
        case None =>
          return None;
        case Some(t) =>
          rest := t;
      }
      var ok, version := ScanD();
      if !ok || version != 1 {
        return None;
      }
      rest := Trim(rest);
      var inputDense := InputDense();
      if inputDense.None? { return None; }
      var vadGru := InputGru();
      if vadGru.None? { return None; }
      var noiseGru := InputGru();
      if noiseGru.None? { return None; }
      var denoiseGru := InputGru();
      if denoiseGru.None? { return None; }
      var denoiseOutput := InputDense();
      if denoiseOutput.None? { return None; }
      var vadOutput := InputDense();
      if vadOutput.None? { return None; }
      return Some(RNNModel(inputDense.value, vadGru.value, noiseGru.value, denoiseGru.value, denoiseOutput.value,
                           vadOutput.value));
    }
  }

  /** Reading len values comes to this after done has been read and rest is left. */
  ghost predicate Resumed(s: string, len: nat, done: seq<int>, rest: string)
  {
    |done| <= len
    && match ReadArray(rest, len - |done|)
       case None => ReadArray(s, len) == None
       case Some(t) => ReadArray(s, len) == Some((done + t.0, t.1))
  }

  lemma ResumeEnds(s: string, len: nat, done: seq<int>, rest: string)
    requires |done| <= len
    ensures done == [] && rest == s ==> Resumed(s, len, done, rest)
    ensures |done| == len && Resumed(s, len, done, rest) ==> ReadArray(s, len) == Some((done, rest))
  {
    hide ScanInt, SChar;
    assert done + [] == done;
    if done == [] {
      match ReadArray(s, len)
      case None =>
      case Some(t) => assert [] + t.0 == t.0;
    }
  }

  lemma ResumeNext(s: string, len: nat, done: seq<int>, rest: string)
    requires Resumed(s, len, done, rest) && |done| < len
    ensures match ScanInt(rest)
            case None => ReadArray(s, len) == None
            case Some(r) => Resumed(s, len, done + [SChar(r.0)], r.1)
  {
    hide ScanInt, SChar;
    match ScanInt(rest)
    case None =>
    case Some(r) =>
      var more := ReadArray(r.1, len - |done| - 1);
      if more.Some? {
        assert done + ([SChar(r.0)] + more.value.0) == done + [SChar(r.0)] + more.value.0;
      }
  }

  // ---- The reader undoes the printer ----

  lemma {:induction false} ReadVector(s: string, q: seq<int>, rest: string)
    requires Trim(s) == Trim(VectorOn(q, rest))
    ensures ReadArray(s, |q|).Some? && ReadArray(s, |q|).value.0 == SChars(q)
    ensures Trim(ReadArray(s, |q|).value.1) == Trim(rest)
    decreases |q|
  {
    hide *;
    ArrayUnfolds(s, |q|);
    if |q| == 0 {
      VectorUnfolds(q, rest);
      SkipsNewline(rest);
    } else {
      var more := if |q| == 1 then rest else VectorOn(q[1..], rest);
      var sep := if |q| == 1 then '\n' else ' ';
      VectorUnfolds(q, rest);
      ScanField(s, q[0], sep, more);
      SCharsUnfold(q);
      if |q| == 1 {
        ArrayUnfolds([sep] + more, 0);
      } else {
        ReadVector([sep] + more, q[1..], rest);
      }
    }
  }

  lemma VectorUnfolds(q: seq<int>, rest: string)
    ensures q == [] ==> VectorOn(q, rest) == "\n" + rest
    ensures |q| == 1 ==> VectorOn(q, rest) == IntText(q[0]) + (['\n'] + rest)
    ensures |q| > 1 ==> VectorOn(q, rest) == IntText(q[0]) + ([' '] + VectorOn(q[1..], rest))
    ensures IsSpace('\n') && IsSpace(' ')
  {
  }

  lemma ArrayUnfolds(s: string, n: nat)
    ensures n == 0 ==> ReadArray(s, n) == Some(([], s))
    ensures n > 0 && ScanInt(s).Some? && ReadArray(ScanInt(s).value.1, n - 1).Some? ==>
      var t := ReadArray(ScanInt(s).value.1, n - 1).value;
      ReadArray(s, n) == Some(([SChar(ScanInt(s).value.0)] + t.0, t.1))
  {
    hide ScanInt;
  }

  lemma SCharsUnfold(q: seq<int>)
    requires q != []
    ensures SChars(q) == [SChar(q[0])] + SChars(q[1..]) && SChars([]) == []
    ensures |q| == 1 ==> q[1..] == []
  {
  }

  lemma SkipsNewline(rest: string)
    ensures Trim("\n" + rest) == Trim(rest)
  {
    assert ("\n" + rest)[1..] == rest;
  }

  lemma ReadPrintedVal(s: string, v: nat, sep: char, rest: string)
    requires IsSpace(sep) && Trim(s) == Trim(IntText(v) + ([sep] + rest))
    ensures ReadVal(s) == if v <= 128 then Some((v, [sep] + rest)) else None
    ensures Trim([sep] + rest) == Trim(rest)
  {
    hide ScanInt, IntText, Trim;
    ScanField(s, v, sep, rest);
  }

  predicate Fits(inputs: nat, neurons: nat)
  {
    inputs <= 128 && neurons <= 128
  }

  /** The text of three fields, followed by rest. */
  function ShapeOn(inputs: nat, neurons: nat, code: nat, rest: string): string
  {
    IntText(inputs) + (" " + (IntText(neurons) + (" " + (IntText(code) + ("\n" + rest)))))
  }

  lemma ReadPrintedShape(s: string, inputs: nat, neurons: nat, code: nat, rest: string)
    requires code < 3 && Trim(s) == Trim(ShapeOn(inputs, neurons, code, rest))
    ensures ReadShape(s).Some? <==> Fits(inputs, neurons)
    ensures ReadShape(s).Some? ==> ReadShape(s).value.0 == Shape(inputs, neurons, ActivationOf(code))
    ensures ReadShape(s).Some? ==> Trim(ReadShape(s).value.1) == Trim(rest)
  {
    hide ReadVal, IntText, Trim;
    var t2 := IntText(code) + ("\n" + rest);
    var t1 := IntText(neurons) + (" " + t2);
    ReadPrintedVal(s, inputs, ' ', t1);
    ReadPrintedVal(" " + t1, neurons, ' ', t2);
    ReadPrintedVal(" " + t2, code, '\n', rest);
  }

  /** A layer whose arrays have the sizes of a dense layer, or of a recurrent one. */
  predicate IsDenseLayer(l: KerasLayer)
  {
    |l.weights| == 2 && |l.weights[0]| == l.inputs * l.cols && |l.weights[1]| == l.cols
  }

  predicate IsGruLayer(l: KerasLayer)
  {
    |l.weights| == 3 && l.cols % 3 == 0 && |l.weights[0]| == l.inputs * l.cols
    && |l.weights[1]| == Neurons(l) * l.cols && |l.weights[2]| == l.cols
  }

  /** What the reader keeps of a list of trained weights. */
  function Kept(v: seq<real>): (k: seq<int>)
    ensures |k| == |v|
  {
    SChars(Quantised(v))
  }

  function ToDense(l: KerasLayer): DenseLayer
    requires |l.weights| == 2
  {
    DenseLayer(Kept(l.weights[1]), Kept(l.weights[0]), l.inputs, Neurons(l), ActivationOf(ActivationCode(l.activation)))
  }

  function ToGru(l: KerasLayer): GRULayer
    requires |l.weights| == 3
  {
    GRULayer(Kept(l.weights[2]), Kept(l.weights[0]), Kept(l.weights[1]), l.inputs, Neurons(l),
             ActivationOf(ActivationCode(l.activation)))
  }

  lemma ReadPrintedDense(s: string, l: KerasLayer, rest: string)
    requires IsDenseLayer(l) && Trim(s) == Trim(LayerOn(l, rest))
    ensures ReadDense(s).Some? <==> Fits(l.inputs, Neurons(l))
    ensures ReadDense(s).Some? ==> ReadDense(s).value.0 == ToDense(l) && Trim(ReadDense(s).value.1) == Trim(rest)
  {
    hide ReadShape, ReadArray, IntText, VectorOn, Quantised, SChars, Trim;
    var code := ActivationCode(l.activation);
    var bias := VectorOn(Quantised(l.weights[1]), rest);
    var kernel := VectorOn(Quantised(l.weights[0]), bias);
    assert LayerOn(l, rest) == ShapeOn(l.inputs, Neurons(l), code, kernel);
    ReadPrintedShape(s, l.inputs, Neurons(l), code, kernel);
    if Fits(l.inputs, Neurons(l)) {
      var h := ReadShape(s).value;
      ReadVector(h.1, Quantised(l.weights[0]), bias);
      QuantisedLength(l.weights[0]);
      var w := ReadArray(h.1, l.inputs * l.cols).value;
      ReadVector(w.1, Quantised(l.weights[1]), rest);
      QuantisedLength(l.weights[1]);
    }
  }

  lemma QuantisedLength(v: seq<real>)
    ensures |Quantised(v)| == |v|
  {
  }

  lemma GruSizes(l: KerasLayer)
    requires IsGruLayer(l)
    ensures l.cols == Neurons(l) * 3 && |l.weights[0]| == l.inputs * Neurons(l) * 3
    ensures |l.weights[1]| == Neurons(l) * Neurons(l) * 3 && |l.weights[2]| == Neurons(l) * 3
  {
    var n := Neurons(l);
    assert l.inputs * (n * 3) == l.inputs * n * 3;
    assert n * (n * 3) == n * n * 3;
  }

  lemma ReadPrintedGru(s: string, l: KerasLayer, rest: string)
    requires IsGruLayer(l) && Trim(s) == Trim(LayerOn(l, rest))
    ensures ReadGru(s).Some? <==> Fits(l.inputs, Neurons(l))
    ensures ReadGru(s).Some? ==> ReadGru(s).value.0 == ToGru(l) && Trim(ReadGru(s).value.1) == Trim(rest)
  {
    hide ReadShape, ReadArray, IntText, VectorOn, Quantised, SChars, Trim, Neurons, IsGruLayer;
    GruArrays(l);
    GruSizes(l);
    var n := Neurons(l);
    var code := ActivationCode(l.activation);
    var bias := VectorOn(Quantised(l.weights[2]), rest);
    var recurrent := VectorOn(Quantised(l.weights[1]), bias);
    var kernel := VectorOn(Quantised(l.weights[0]), recurrent);
    assert LayerOn(l, rest) == ShapeOn(l.inputs, n, code, kernel);
    ReadPrintedShape(s, l.inputs, n, code, kernel);
    if Fits(l.inputs, n) {
      var h := ReadShape(s).value;
      ReadVector(h.1, Quantised(l.weights[0]), recurrent);
      QuantisedLength(l.weights[0]);
      var w := ReadArray(h.1, l.inputs * n * 3).value;
      ReadVector(w.1, Quantised(l.weights[1]), bias);
      QuantisedLength(l.weights[1]);
      var u := ReadArray(w.1, n * n * 3).value;
      ReadVector(u.1, Quantised(l.weights[2]), rest);
      QuantisedLength(l.weights[2]);
    }
  }

  lemma GruArrays(l: KerasLayer)
    requires IsGruLayer(l)
    ensures |l.weights| == 3
  {
  }

  /** The network that the reader expects: six layers in its own order. */
  predicate IsNetwork(m: seq<KerasLayer>)
  {
    |m| == 6 && IsDenseLayer(m[0]) && IsGruLayer(m[1]) && IsGruLayer(m[2]) && IsGruLayer(m[3])
    && IsDenseLayer(m[4]) && IsDenseLayer(m[5])
  }

  predicate AllFit(m: seq<KerasLayer>)
  {
    forall i :: 0 <= i < |m| ==> Fits(m[i].inputs, Neurons(m[i]))
  }

  function ToModel(m: seq<KerasLayer>): RNNModel
    requires IsNetwork(m)
  {
    RNNModel(ToDense(m[0]), ToGru(m[1]), ToGru(m[2]), ToGru(m[3]), ToDense(m[4]), ToDense(m[5]))
  }

  lemma LayersUnfold(m: seq<KerasLayer>, i: nat)
    requires i < |m| && |m[i].weights| > 0
    ensures LayersOn(m[i..]) == LayerOn(m[i], LayersOn(m[i + 1..]))
  {
    hide LayerOn;
    assert m[i..][1..] == m[i + 1..];
  }

  lemma NetworkUnfolds(m: seq<KerasLayer>)
    requires IsNetwork(m)
    ensures LayersOn(m) == LayerOn(m[0], LayersOn(m[1..])) && LayersOn(m[1..]) == LayerOn(m[1], LayersOn(m[2..]))
    ensures LayersOn(m[2..]) == LayerOn(m[2], LayersOn(m[3..])) && LayersOn(m[3..]) == LayerOn(m[3], LayersOn(m[4..]))
    ensures LayersOn(m[4..]) == LayerOn(m[4], LayersOn(m[5..])) && LayersOn(m[5..]) == LayerOn(m[5], LayersOn(m[6..]))
  {
    hide LayerOn, LayersOn;
    assert m[0..] == m;
    LayersUnfold(m, 0);
    LayersUnfold(m, 1);
    LayersUnfold(m, 2);
    LayersUnfold(m, 3);
    LayersUnfold(m, 4);
    LayersUnfold(m, 5);
  }

  lemma ReadPrintedLayers(s: string, m: seq<KerasLayer>)
    requires IsNetwork(m) && Trim(s) == Trim(LayersOn(m))
    ensures ReadLayers(s) == if AllFit(m) then Some(ToModel(m)) else None
  {
    hide LayerOn, LayersOn, ReadDense, ReadGru, Trim, ToDense, ToGru, IsDenseLayer, IsGruLayer, Fits, Neurons;
    NetworkUnfolds(m);
    ReadPrintedDense(s, m[0], LayersOn(m[1..]));
    if !Fits(m[0].inputs, Neurons(m[0])) { return; }
    var s1 := ReadDense(s).value.1;
    ReadPrintedGru(s1, m[1], LayersOn(m[2..]));
    if !Fits(m[1].inputs, Neurons(m[1])) { return; }
    var s2 := ReadGru(s1).value.1;
    ReadPrintedGru(s2, m[2], LayersOn(m[3..]));
    if !Fits(m[2].inputs, Neurons(m[2])) { return; }
    var s3 := ReadGru(s2).value.1;
    ReadPrintedGru(s3, m[3], LayersOn(m[4..]));
    if !Fits(m[3].inputs, Neurons(m[3])) { return; }
    var s4 := ReadGru(s3).value.1;
    ReadPrintedDense(s4, m[4], LayersOn(m[5..]));
    if !Fits(m[4].inputs, Neurons(m[4])) { return; }
    var s5 := ReadDense(s4).value.1;
    ReadPrintedDense(s5, m[5], LayersOn(m[6..]));
  }

  lemma TrimOne(s: string, t: string)
    requires s != "" && IsSpace(s[0]) && s[1..] == t && t != "" && !IsSpace(t[0])
    ensures Trim(s) == t
  {
    hide IsSpace;
  }

  lemma {:induction false} FormatMatchesItself(fmt: string, rest: string)
    requires forall i :: 0 <= i < |fmt| && IsSpace(fmt[i]) ==> i + 1 == |fmt| || !IsSpace(fmt[i + 1])
    requires rest != "" && !IsSpace(rest[0])
    ensures MatchFormat(fmt, fmt + rest) == Some(rest)
  {
    hide IsSpace;
    if fmt == "" {
      assert "" + rest == rest;
    } else {
      var t := fmt[1..] + rest;
      assert (fmt + rest)[1..] == t && (fmt + rest)[0] == fmt[0];
      if IsSpace(fmt[0]) {
        assert !IsSpace(t[0]) by {
          if |fmt| > 1 {
            assert t[0] == fmt[1];
          } else {
            assert t == rest;
          }
        }
        TrimOne(fmt + rest, t);
      }
      assert forall i :: 0 <= i < |fmt[1..]| ==> fmt[1..][i] == fmt[i + 1];
      FormatMatchesItself(fmt[1..], rest);
    }
  }

  lemma HeaderSpaces()
    ensures forall i :: 0 <= i < |HEADER| && IsSpace(HEADER[i]) ==> i + 1 == |HEADER| || !IsSpace(HEADER[i + 1])
  {
    assert |HEADER| == 30;
    forall i | 0 <= i < |HEADER| && IsSpace(HEADER[i])
      ensures i + 1 == |HEADER| || !IsSpace(HEADER[i + 1])
    {
      assert i == 10 || i == 16 || i == 21 || i == 29;
    }
  }

  lemma ReadHeader(rest: string)
    ensures ReadVersion(HEADER + ("1" + ("\n" + rest))) == Some((1, "\n" + rest))
    ensures Trim("\n" + rest) == Trim(rest)
  {
    hide HEADER, MatchFormat, ScanInt, Trim;
    var t := "1" + ("\n" + rest);
    HeaderSpaces();
    FormatMatchesItself(HEADER, t);
    OneText();
    ScanField(t, 1, '\n', rest);
  }

  lemma OneText()
    ensures IntText(1) == "1"
  {
  }

  lemma {:induction false} TrimTwice(s: string)
    ensures Trim(Trim(s)) == Trim(s)
  {
  }

  /** What dump_rnn.py prints, rnn_reader.c reads: the quantised network when no dimension exceeds 128, and a
      refusal otherwise. */
  lemma RoundTrip(m: seq<KerasLayer>)
    requires IsNetwork(m)
    ensures ReadModel(ModelText(m)) == if AllFit(m) then Some(ToModel(m)) else None
  {
    hide LayersOn, ReadLayers, ReadVersion, Trim, AllFit, IsNetwork;
    ReadHeader(LayersOn(m));
    TrimTwice(LayersOn(m));
    ReadPrintedLayers(Trim("\n" + LayersOn(m)), m);
  }

  /** The network whose numbers are the ones printed. */
  function PrintedDense(l: KerasLayer): DenseLayer
    requires |l.weights| == 2
  {
    DenseLayer(Quantised(l.weights[1]), Quantised(l.weights[0]), l.inputs, Neurons(l),
               ActivationOf(ActivationCode(l.activation)))
  }

  function PrintedGru(l: KerasLayer): GRULayer
    requires |l.weights| == 3
  {
    GRULayer(Quantised(l.weights[2]), Quantised(l.weights[0]), Quantised(l.weights[1]), l.inputs, Neurons(l),
             ActivationOf(ActivationCode(l.activation)))
  }

  function PrintedModel(m: seq<KerasLayer>): RNNModel
    requires IsNetwork(m)
  {
    RNNModel(PrintedDense(m[0]), PrintedGru(m[1]), PrintedGru(m[2]), PrintedGru(m[3]),
             PrintedDense(m[4]), PrintedDense(m[5]))
  }

  predicate AllAbove(v: seq<real>)
  {
    forall i :: 0 <= i < |v| ==> 256.0 * v[i] > -128.5
  }

  predicate LayerAbove(l: KerasLayer)
  {
    forall i :: 0 <= i < |l.weights| ==> AllAbove(l.weights[i])
  }

  lemma KeptVector(v: seq<real>)
    ensures Kept(v) == Quantised(v) <==> AllAbove(v)
  {
    hide Quantise, SChar;
    var q := Quantised(v);
    forall i | 0 <= i < |v|
      ensures SChar(q[i]) == q[i] <==> 256.0 * v[i] > -128.5
    {
      KeptExactly(v[i]);
    }
    assert AllAbove(v) ==> Kept(v) == q;
    if Kept(v) == q {
      forall i | 0 <= i < |v|
        ensures 256.0 * v[i] > -128.5
      {
        assert Kept(v)[i] == SChar(q[i]);
      }
    }
  }

  lemma KeptLayer(l: KerasLayer)
    requires |l.weights| == 2 || |l.weights| == 3
    ensures |l.weights| == 2 ==> (ToDense(l) == PrintedDense(l) <==> LayerAbove(l))
    ensures |l.weights| == 3 ==> (ToGru(l) == PrintedGru(l) <==> LayerAbove(l))
  {
    hide Kept, Quantised, AllAbove, Neurons;
    KeptVector(l.weights[0]);
    KeptVector(l.weights[1]);
    if |l.weights| == 3 {
      KeptVector(l.weights[2]);
    }
  }

  /** The round trip is exact if and only if no dimension exceeds 128 and no weight is at or below -128.5 / 256. */
  lemma RoundTripExact(m: seq<KerasLayer>)
    requires IsNetwork(m)
    ensures ReadModel(ModelText(m)) == Some(PrintedModel(m))
       <==> AllFit(m) && forall i :: 0 <= i < |m| ==> LayerAbove(m[i])
  {
    hide ReadModel, ModelText, AllFit, ToDense, ToGru, PrintedDense, PrintedGru, LayerAbove;
    RoundTrip(m);
    KeptLayer(m[0]);
    KeptLayer(m[1]);
    KeptLayer(m[2]);
    KeptLayer(m[3]);
    KeptLayer(m[4]);
    KeptLayer(m[5]);
  }

  /** The value read for a trained weight is the one printed, exactly when the weight was not below -128.5 / 256: the
      printer clips only from above, and the reader wraps what does not fit a signed char. */
  lemma KeptExactly(v: real)
    ensures SChar(Quantise(v)) == Quantise(v) <==> 256.0 * v > -128.5
  {
    assert SChar(Quantise(v)) == Quantise(v) <==> Quantise(v) >= -128;
  }

  /** A weight of -129 / 256 comes back as 127 / 256. */
  lemma NegativeWeightWraps()
    ensures Quantise(-129.0 / 256.0) == -129 && SChar(-129) == 127
  {
  }

  // ---- Any file ----

  predicate Chars(q: seq<int>)
  {
    forall i :: 0 <= i < |q| ==> -128 <= q[i] < 128
  }

  lemma {:induction false} ReadArrayShape(s: string, n: nat)
    ensures ReadArray(s, n).Some? ==> |ReadArray(s, n).value.0| == n && Chars(ReadArray(s, n).value.0)
    decreases n
  {
    hide ScanInt;
    if n > 0 && ScanInt(s).Some? {
      ReadArrayShape(ScanInt(s).value.1, n - 1);
    }
  }

  lemma ReadShapeFits(s: string)
    ensures ReadShape(s).Some? ==> Fits(ReadShape(s).value.0.inputs, ReadShape(s).value.0.neurons)
  {
    hide ScanInt;
  }

  lemma ReadDenseShape(s: string)
    ensures ReadDense(s).Some? ==>
      var l := ReadDense(s).value.0;
      IsDense(l) && Fits(l.nbInputs, l.nbNeurons) && Chars(l.inputWeights) && Chars(l.bias)
  {
    hide ReadShape, ReadArray, Chars;
    ReadShapeFits(s);
    if ReadDense(s).Some? {
      var h := ReadShape(s).value;
      ReadArrayShape(h.1, h.0.inputs * h.0.neurons);
      var w := ReadArray(h.1, h.0.inputs * h.0.neurons).value;
      ReadArrayShape(w.1, h.0.neurons);
    }
  }

  lemma ReadGruShape(s: string)
    ensures ReadGru(s).Some? ==>
      var l := ReadGru(s).value.0;
      IsGru(l) && Fits(l.nbInputs, l.nbNeurons) && Chars(l.inputWeights) && Chars(l.recurrentWeights) && Chars(l.bias)
  {
    hide ReadShape, ReadArray, Chars;
    ReadShapeFits(s);
    if ReadGru(s).Some? {
      var h := ReadShape(s).value;
      var i, n := h.0.inputs, h.0.neurons;
      Tripled(i, n);
      Tripled(n, n);
      ReadArrayShape(h.1, i * n * 3);
      var w := ReadArray(h.1, i * n * 3).value;
      ReadArrayShape(w.1, n * n * 3);
      var u := ReadArray(w.1, n * n * 3).value;
      ReadArrayShape(u.1, n * 3);
    }
  }

  lemma Tripled(a: int, b: int)
    ensures a * b * 3 == a * (3 * b)
  {
  }

  predicate DenseChars(l: DenseLayer)
  {
    IsDense(l) && Chars(l.inputWeights) && Chars(l.bias)
  }

  predicate GruChars(l: GRULayer)
  {
    IsGru(l) && Chars(l.inputWeights) && Chars(l.recurrentWeights) && Chars(l.bias)
  }

  /** Whatever file is accepted, every layer has as many weights as its dimensions say, and each is a signed char. */
  lemma AcceptedIsShaped(s: string)
    ensures ReadModel(s).Some? ==> IsShaped(ReadModel(s).value)
    ensures ReadModel(s).Some? ==>
      var m := ReadModel(s).value;
      && DenseChars(m.inputDense) && GruChars(m.vadGru) && GruChars(m.noiseGru) && GruChars(m.denoiseGru)
      && DenseChars(m.denoiseOutput) && DenseChars(m.vadOutput)
  {
    hide ReadVersion, ReadDense, ReadGru, Trim, IsDense, IsGru, Chars;
    if ReadModel(s).Some? {
      var s0 := Trim(ReadVersion(s).value.1);
      ReadDenseShape(s0);
      var s1 := ReadDense(s0).value.1;
      ReadGruShape(s1);
      var s2 := ReadGru(s1).value.1;
      ReadGruShape(s2);
      var s3 := ReadGru(s2).value.1;
      ReadGruShape(s3);
      var s4 := ReadGru(s3).value.1;
      ReadDenseShape(s4);
      ReadDenseShape(ReadDense(s4).value.1);
    }
  }

  /** A recurrent layer without neurons, and a dense layer without inputs. */
  function NoNeurons(): KerasLayer
  {
    KerasLayer(0, 0, "TANH", [[], [], []])
  }

  function BiasOnly(n: nat): KerasLayer
  {
    KerasLayer(0, n, "SIGMOID", [[], seq(n, i => 0.0)])
  }

  /** The reader does not look at how the layers fit: it accepts the printed network whose last layers give n gains and
      v voice activities for any n and v up to 128, and of these the ones with n <= 22 and v <= 1 fit. */
  lemma AcceptedNeedNotFit(n: nat, v: nat)
    requires n <= 128 && v <= 128
    ensures
      var m := [BiasOnly(0), NoNeurons(), NoNeurons(), NoNeurons(), BiasOnly(n), BiasOnly(v)];
      IsNetwork(m) && ReadModel(ModelText(m)).Some? && (Wired(ReadModel(ModelText(m)).value) <==> n <= 22 && v <= 1)
  {
    hide ReadModel, ModelText, Kept, Wired;
    var m := [BiasOnly(0), NoNeurons(), NoNeurons(), NoNeurons(), BiasOnly(n), BiasOnly(v)];
    RoundTrip(m);
    WiredIs(ToModel(m));
  }

  // ---- The format in concrete texts ----

  /** The layers of an accepted network by their place in the file. */
  lemma LayerOrder(m: seq<KerasLayer>)
    requires IsNetwork(m) && AllFit(m)
    ensures ReadModel(ModelText(m)).Some?
    ensures
      var r := ReadModel(ModelText(m)).value;
      && r.inputDense.nbInputs == m[0].inputs && r.inputDense.nbNeurons == m[0].cols
      && r.vadGru.nbInputs == m[1].inputs && 3 * r.vadGru.nbNeurons == m[1].cols
      && r.noiseGru.nbInputs == m[2].inputs && 3 * r.noiseGru.nbNeurons == m[2].cols
      && r.denoiseGru.nbInputs == m[3].inputs && 3 * r.denoiseGru.nbNeurons == m[3].cols
      && r.denoiseOutput.nbInputs == m[4].inputs && r.denoiseOutput.nbNeurons == m[4].cols
      && r.vadOutput.nbInputs == m[5].inputs && r.vadOutput.nbNeurons == m[5].cols
  {
    hide ReadModel, ModelText, Kept, AllFit, ActivationOf, ActivationCode;
    RoundTrip(m);
  }

  lemma OneDigit(n: nat)
    requires n < 10
    ensures IntText(n) == [Digit(n)] && Decimal(n) == [Digit(n)]
  {
  }

  lemma TwoDigits(n: nat)
    requires 10 <= n < 100
    ensures Decimal(n) == [Digit(n / 10), Digit(n % 10)]
  {
  }

  /** A dense layer of two inputs and one neuron: dimensions and activation, kernel, bias. */
  function SmallDense(): KerasLayer
  {
    KerasLayer(2, 1, "RELU", [[0.25, -0.25], [0.0078125]])
  }

  /** A recurrent layer of one input and one neuron: dimensions and activation, kernel, recurrent kernel, bias. */
  function SmallGru(): KerasLayer
  {
    KerasLayer(1, 3, "SIGMOID", [[0.00390625, 0.0078125, 0.01171875], [0.015625, 0.01953125, 0.0234375],
                                 [0.02734375, 0.03125, 0.03515625]])
  }

  lemma SmallNumbers()
    ensures Quantised(SmallDense().weights[0]) == [64, -64] && Quantised(SmallDense().weights[1]) == [2]
    ensures Quantised(SmallGru().weights[0]) == [1, 2, 3] && Quantised(SmallGru().weights[1]) == [4, 5, 6]
    ensures Quantised(SmallGru().weights[2]) == [7, 8, 9]
  {
  }

  lemma DenseText()
    ensures LayerOn(SmallDense(), "") == "2 1 2\n64 -64\n2\n"
    ensures ReadDense("2 1 2\n64 -64\n2\n").Some?
    ensures ReadDense("2 1 2\n64 -64\n2\n").value.0 == DenseLayer([2], [64, -64], 2, 1, Relu)
  {
    hide ReadDense, Decimal, Quantised, VectorOn, IntText;
    SmallNumbers();
    OneDigit(1);
    OneDigit(2);
    DenseVectors();
    assert LayerOn(SmallDense(), "") == "2 1 2\n64 -64\n2\n";
    ReadPrintedDense("2 1 2\n64 -64\n2\n", SmallDense(), "");
  }

  lemma DenseVectors()
    ensures VectorOn([2], "") == "2\n" && VectorOn([64, -64], "2\n") == "64 -64\n2\n"
  {
    hide Decimal;
    OneDigit(2);
    TwoDigits(64);
    assert VectorOn([-64], "2\n") == "-64\n2\n";
    assert [64, -64][1..] == [-64];
  }

  lemma GruText()
    ensures LayerOn(SmallGru(), "") == "1 1 1\n1 2 3\n4 5 6\n7 8 9\n"
    ensures ReadGru("1 1 1\n1 2 3\n4 5 6\n7 8 9\n").Some?
    ensures ReadGru("1 1 1\n1 2 3\n4 5 6\n7 8 9\n").value.0 == GRULayer([7, 8, 9], [1, 2, 3], [4, 5, 6], 1, 1, Sigmoid)
  {
    hide ReadGru, Decimal, Quantised, VectorOn, IntText;
    SmallNumbers();
    OneDigit(1);
    GruVectors();
    Ones("1 2 3\n4 5 6\n7 8 9\n");
    assert "1 1 1\n" + "1 2 3\n4 5 6\n7 8 9\n" == "1 1 1\n1 2 3\n4 5 6\n7 8 9\n";
    ReadPrintedGru("1 1 1\n1 2 3\n4 5 6\n7 8 9\n", SmallGru(), "");
  }

  lemma Ones(x: string)
    ensures "1" + (" " + ("1" + (" " + ("1" + ("\n" + x))))) == "1 1 1\n" + x
  {
  }

  lemma GruVectors()
    ensures VectorOn([7, 8, 9], "") == "7 8 9\n"
    ensures VectorOn([4, 5, 6], "7 8 9\n") == "4 5 6\n7 8 9\n"
    ensures VectorOn([1, 2, 3], "4 5 6\n7 8 9\n") == "1 2 3\n4 5 6\n7 8 9\n"
  {
    hide VectorOn;
    ThreeDigits(7, 8, 9, "");
    ThreeDigits(4, 5, 6, "7 8 9\n");
    ThreeDigits(1, 2, 3, "4 5 6\n7 8 9\n");
  }

  lemma ThreeDigits(a: nat, b: nat, c: nat, rest: string)
    requires a < 10 && b < 10 && c < 10
    ensures VectorOn([a, b, c], rest) == [Digit(a), ' ', Digit(b), ' ', Digit(c), '\n'] + rest
  {
    OneDigit(a);
    OneDigit(b);
    OneDigit(c);
    hide IntText, Digit;
    assert [a, b, c][1..] == [b, c] && [b, c][1..] == [c];
    assert VectorOn([c], rest) == [Digit(c), '\n'] + rest;
    assert VectorOn([b, c], rest) == [Digit(b), ' ', Digit(c), '\n'] + rest;
  }

  /** The first line of every file. */
  lemma HeaderText(m: seq<KerasLayer>)
    ensures "rnnoise-nu model file version 1\n" <= ModelText(m)
  {
  }
}
