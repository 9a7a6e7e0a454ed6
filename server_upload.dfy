/** Image intake on the server: the multer file filter, the per-request
    `processImages` middleware that re-encodes every upload to WebP under a
    generated name, and the descriptors it hands to the route handlers.

    The pixel work (decode, fit-inside resize to 1920x1080, lossless WebP
    encode) is done by a foreign library and is not modelled: whether it
    succeeds for file i is the input `encoded[i]`. The clock and the random
    draw used in each file name are the input `stamps[i]`. */
module Upload {
  import opened Strings
  import opened Paths

  /** What multer hands over for one uploaded part (the buffer is left out). */
  datatype UploadedFile = UploadedFile(fieldname: string, originalname: string, mimetype: string)

  /** The verdict of `fileFilter`: accept, or fail the request with a message. */
  datatype FilterVerdict = Accept | Reject(message: string)

  const OnlyImagesMessage: string := "¡Solo se permiten archivos de imagen!"

  /** A file passes the filter exactly when its MIME type starts with `image/`;
      otherwise the filter reports an error. */
  function FileFilter(mimetype: string): (v: FilterVerdict)
    ensures v.Accept? <==> StartsWith(mimetype, "image/")
    ensures v.Reject? ==> v.message == OnlyImagesMessage
  {
    if StartsWith(mimetype, "image/") then Accept else Reject(OnlyImagesMessage)
  }

  /** `upload.array('images', 10)`: the only field that may carry files, and
      how many files it may carry. */
  const ImagesField: string := "images"
  const MaxFiles: nat := 10

  /** Before the file filter, multer checks each part against the fields the
      route declared: a part under another field, or one more than the
      field's maximum, is an unexpected file. With every earlier part
      accepted as an `images` file, part j is expected exactly when it is
      sent under `images` and j < 10. */
  predicate Expected(j: nat, file: UploadedFile) {
    file.fieldname == ImagesField && j < MaxFiles
  }

  /** Part j gets through multer: it is expected and it passes the filter. */
  predicate PartAccepted(j: nat, file: UploadedFile) {
    Expected(j, file) && FileFilter(file.mimetype).Accept?
  }

  /** Index of the first part at or after `from` that multer stops at, or
      |files| when none is. */
  function FirstRejectedFrom(files: seq<UploadedFile>, from: nat): (k: nat)
    requires from <= |files|
    ensures from <= k <= |files|
    ensures forall j :: from <= j < k ==> PartAccepted(j, files[j])
    ensures k < |files| ==> !PartAccepted(k, files[k])
    decreases |files| - from
  {
    if from == |files| then from
    else if !PartAccepted(from, files[from]) then from
    else FirstRejectedFrom(files, from + 1)
  }

  /** Index of the first part multer stops at, or |files| when none is. */
  function FirstRejected(files: seq<UploadedFile>): (k: nat)
    ensures k <= |files|
    ensures forall j :: 0 <= j < k ==> PartAccepted(j, files[j])
    ensures k < |files| ==> !PartAccepted(k, files[k])
  {
    FirstRejectedFrom(files, 0)
  }

  /** Why multer fails a request: `LIMIT_UNEXPECTED_FILE` naming the field,
      or the file filter's error. */
  datatype IntakeError = UnexpectedFile(field: string) | NotAnImage(message: string)

  /** Multer checks the parts in turn; the first one it stops at fails the
      whole request, and since storage is in memory nothing reaches the
      disk. `Rejected` is that failure, `Admitted` lets every file through. */
  datatype Intake = Rejected(error: IntakeError) | Admitted(files: seq<UploadedFile>)

  /** A request is admitted exactly when it carries at most ten files, all
      under `images` and all images; otherwise the first offending part
      decides the error. */
  function IntakeFiles(files: seq<UploadedFile>): (r: Intake)
    ensures r.Admitted? <==>
      |files| <= MaxFiles
      && forall j :: 0 <= j < |files| ==>
           files[j].fieldname == ImagesField && StartsWith(files[j].mimetype, "image/")
    ensures r.Admitted? ==> r.files == files
    ensures r.Rejected? ==>
      var k := FirstRejected(files);
      && k < |files|
      && (r.error.UnexpectedFile? <==> !Expected(k, files[k]))
      && (r.error.UnexpectedFile? ==> r.error.field == files[k].fieldname)
      && (r.error.NotAnImage? ==> r.error.message == OnlyImagesMessage)
  {
    var k := FirstRejected(files);
    if k < |files| then
      if Expected(k, files[k]) then Rejected(NotAnImage(OnlyImagesMessage))
      else Rejected(UnexpectedFile(files[k].fieldname))
    else
      assert |files| <= MaxFiles by {
        if |files| > 0 {
          assert PartAccepted(|files| - 1, files[|files| - 1]);
        }
      }
      Admitted(files)
  }

  /** `Date.now()` and `Math.round(Math.random() * 1E9)` as drawn for one file. */
  datatype Stamp = Stamp(now: nat, rand: nat)

  const UploadsDir: string := "public/uploads"

  /** `${file.fieldname}-${Date.now()}-${rand}.webp`: the field name and a
      dash, the two draws, and `.webp` whatever the input format. A field
      name without a slash gives a plain file name. */
  function UploadFilename(fieldname: string, stamp: Stamp): (name: string)
    ensures '/' !in fieldname ==> Plain(name)
  {
    var name := fieldname + "-" + Decimal(stamp.now) + "-" + Decimal(stamp.rand) + ".webp";
    assert '/' !in Decimal(stamp.now) && '/' !in Decimal(stamp.rand) by {
      NoSlashInDecimal(stamp.now);
      NoSlashInDecimal(stamp.rand);
    }
    name
  }

  lemma NoSlashInDecimal(n: nat)
    ensures '/' !in Decimal(n)
  {
    var d := Decimal(n);
    forall i | 0 <= i < |d| ensures d[i] != '/' {
      assert IsDigit(d[i]);
    }
  }

  /** `path.join('public/uploads', filename)`: a plain name lands directly in
      the uploads directory. */
  function OutputPath(filename: string): (p: string)
    ensures Plain(filename) ==> p == UploadsDir + "/" + filename
  {
    if Plain(filename) then
      JoinPlainName("public", "uploads", filename);
      assert "public" + "/" + "uploads" == UploadsDir;
      JoinPath(UploadsDir, filename)
    else JoinPath(UploadsDir, filename)
  }

  /** The descriptor `processImages` pushes for each file. */
  datatype Descriptor = Descriptor(
    originalname: string,
    filename: string,
    path: string,
    destination: string,
    mimetype: string)

  /** The descriptor of one converted file: it keeps the original name, is
      declared `image/webp` in public/uploads, and its path is that
      directory and the generated name. */
  function Describe(file: UploadedFile, stamp: Stamp): (d: Descriptor)
    ensures d.originalname == file.originalname && d.mimetype == "image/webp" && d.destination == UploadsDir
    ensures '/' !in file.fieldname ==> Plain(d.filename) && d.path == "public/uploads/" + d.filename
  {
    var name := UploadFilename(file.fieldname, stamp);
    Descriptor(file.originalname, name, OutputPath(name), UploadsDir, "image/webp")
  }

  /** One descriptor per file, in the files' order. */
  function DescribeAll(files: seq<UploadedFile>, stamps: seq<Stamp>): (ds: seq<Descriptor>)
    requires |stamps| == |files|
    ensures |ds| == |files|
    ensures forall i :: 0 <= i < |files| ==> ds[i] == Describe(files[i], stamps[i])
  {
    seq(|files|, i requires 0 <= i < |files| => Describe(files[i], stamps[i]))
  }

  function PathsOf(ds: seq<Descriptor>): (ps: seq<string>)
    ensures |ps| == |ds|
    ensures forall i :: 0 <= i < |ds| ==> ps[i] == ds[i].path
  {
    seq(|ds|, i requires 0 <= i < |ds| => ds[i].path)
  }

  lemma PathsOfSnoc(ds: seq<Descriptor>, d: Descriptor)
    ensures PathsOf(ds + [d]) == PathsOf(ds) + [d.path]
  {
  }

  /** Index of the first file the encoder fails on, or |encoded| when none. */
  function FirstFailure(encoded: seq<bool>): (k: nat)
    ensures k <= |encoded|
    ensures forall j :: 0 <= j < k ==> encoded[j]
    ensures k < |encoded| ==> !encoded[k]
  {
    if encoded == [] then 0
    else if !encoded[0] then 0
    else 1 + FirstFailure(encoded[1..])
  }

  /** What the middleware does with the request: pass it on untouched (no
      files), pass it on with `req.files` replaced, or answer 500. */
  datatype ProcessOutcome =
    | PassThrough
    | Processed(files: seq<Descriptor>)
    | Failed(status: int, message: string)

  const ProcessErrorMessage: string := "Error al procesar las imágenes subidas"

  /** `processImages`: with no files the request passes through unchanged.
      Otherwise each file in turn gets a generated name and is written; the
      result is one descriptor per input file, in input order. If encoding
      fails on some file the request is answered with 500, and the files
      written before it stay on disk: `written` lists the paths written. */
  method ProcessImages(files: seq<UploadedFile>, stamps: seq<Stamp>, encoded: seq<bool>)
    returns (outcome: ProcessOutcome, written: seq<string>)
    requires |stamps| == |files| && |encoded| == |files|
    ensures files == [] ==> outcome == PassThrough && written == []
    ensures files != [] && FirstFailure(encoded) == |files| ==>
      outcome == Processed(DescribeAll(files, stamps)) && written == PathsOf(DescribeAll(files, stamps))
    ensures files != [] && FirstFailure(encoded) < |files| ==>
      outcome == Failed(500, ProcessErrorMessage)
      && written == PathsOf(DescribeAll(files, stamps)[..FirstFailure(encoded)])
  {
    if |files| == 0 {
      return PassThrough, [];
    }
    var processed: seq<Descriptor> := [];
    written := [];
    var i := 0;
    while i < |files|
      invariant 0 <= i <= |files|
      invariant forall j :: 0 <= j < i ==> encoded[j]
      invariant |processed| == i
      invariant forall j :: 0 <= j < i ==> processed[j] == Describe(files[j], stamps[j])
      invariant written == PathsOf(processed)
    {
      var name := UploadFilename(files[i].fieldname, stamps[i]);
      var outputPath := OutputPath(name);
      if !encoded[i] {
        assert FirstFailure(encoded) == i;
        assert processed == DescribeAll(files, stamps)[..i];
        return Failed(500, ProcessErrorMessage), written;
      }
      var d := Descriptor(files[i].originalname, name, outputPath, UploadsDir, "image/webp");
      assert d == Describe(files[i], stamps[i]);
      PathsOfSnoc(processed, d);
      processed := processed + [d];
      written := written + [outputPath];
      i := i + 1;
    }
    assert FirstFailure(encoded) == |files|;
    assert processed == DescribeAll(files, stamps);
    outcome := Processed(processed);
  }

  /** Every generated name starts with the field name and a dash and ends in
      `.webp`, whatever the input format; for a field name without a slash
      (multer's is `images`) its path is under public/uploads. */
  lemma FilenameShape(file: UploadedFile, stamp: Stamp)
    ensures StartsWith(Describe(file, stamp).filename, file.fieldname + "-")
    ensures EndsWith(Describe(file, stamp).filename, ".webp")
    ensures '/' !in file.fieldname ==> Describe(file, stamp).path == "public/uploads/" + Describe(file, stamp).filename
  {
    var name := Describe(file, stamp).filename;
    assert name[..|file.fieldname + "-"|] == file.fieldname + "-";
    assert name[|name| - 5..] == ".webp";
  }

  lemma NoDashInDecimal(n: nat)
    ensures '-' !in Decimal(n)
  {
    var d := Decimal(n);
    forall i | 0 <= i < |d| ensures d[i] != '-' {
      assert IsDigit(d[i]);
    }
  }

  /** Cutting at the first dash: a dash-free head is recovered exactly. */
  lemma CutAtDash(a: string, b: string, c: string, d: string)
    requires '-' !in a && '-' !in c
    requires a + "-" + b == c + "-" + d
    ensures a == c && b == d
  {
    var s := a + "-" + b;
    var t := c + "-" + d;
    assert s[|a|] == '-';
    assert t[|c|] == '-';
    assert forall i :: 0 <= i < |a| ==> s[i] == a[i] && s[i] != '-';
    assert forall i :: 0 <= i < |c| ==> t[i] == c[i] && t[i] != '-';
    assert |a| == |c|;
    assert a == s[..|a|] == t[..|c|] == c;
    assert b == s[|a| + 1..] == t[|c| + 1..] == d;
  }

  /** Two names for the same field coincide only when both the millisecond
      clock and the random draw coincide: the name determines its stamp. */
  lemma FilenameDeterminesStamp(fieldname: string, s1: Stamp, s2: Stamp)
    requires UploadFilename(fieldname, s1) == UploadFilename(fieldname, s2)
    ensures s1 == s2
  {
    var head := fieldname + "-";
    var t1 := Decimal(s1.rand) + ".webp";
    var t2 := Decimal(s2.rand) + ".webp";
    var rest1 := Decimal(s1.now) + "-" + t1;
    var rest2 := Decimal(s2.now) + "-" + t2;
    assert UploadFilename(fieldname, s1) == head + rest1;
    assert UploadFilename(fieldname, s2) == head + rest2;
    assert rest1 == (head + rest1)[|head|..] == (head + rest2)[|head|..] == rest2;
    NoDashInDecimal(s1.now);
    NoDashInDecimal(s2.now);
    CutAtDash(Decimal(s1.now), t1, Decimal(s2.now), t2);
    DecimalInjective(s1.now, s2.now);
    assert Decimal(s1.rand) == t1[..|t1| - 5] == t2[..|t2| - 5] == Decimal(s2.rand);
    DecimalInjective(s1.rand, s2.rand);
  }

  /** The descriptors keep the input order and each one keeps its file's
      original name, is declared `image/webp` and lives under public/uploads.
      Files with distinct stamps and one field name get distinct names. */
  lemma DescriptorsFaithful(files: seq<UploadedFile>, stamps: seq<Stamp>)
    requires |stamps| == |files|
    ensures forall i :: 0 <= i < |files| ==>
      var d := DescribeAll(files, stamps)[i];
      d.originalname == files[i].originalname && d.mimetype == "image/webp"
      && d.destination == UploadsDir && EndsWith(d.filename, ".webp")
      && ('/' !in files[i].fieldname ==> d.path == "public/uploads/" + d.filename)
    ensures forall i, j ::
      (0 <= i < |files| && 0 <= j < |files| && i != j
       && files[i].fieldname == files[j].fieldname && stamps[i] != stamps[j]) ==>
      DescribeAll(files, stamps)[i].filename != DescribeAll(files, stamps)[j].filename
  {
    var ds := DescribeAll(files, stamps);
    forall i | 0 <= i < |files| ensures EndsWith(ds[i].filename, ".webp") {
      FilenameShape(files[i], stamps[i]);
    }
    forall i, j | 0 <= i < |files| && 0 <= j < |files| && i != j
      && files[i].fieldname == files[j].fieldname && stamps[i] != stamps[j]
      ensures ds[i].filename != ds[j].filename
    {
      if ds[i].filename == ds[j].filename {
        FilenameDeterminesStamp(files[i].fieldname, stamps[i], stamps[j]);
      }
    }
  }
}
