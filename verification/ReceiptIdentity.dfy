/** The key by which receipts of one verification are recognized. */
module ReceiptIdentity {
  import Json = JsonArrays
  import opened PathSets

  /** A stored receipt, after its texts were read: `criterionId` and `rendering` stripped,
      `check` in canonical command form, `paths` as listed. An absent text is "". */
  datatype Receipt = Receipt(
    status: string,
    criterionId: string,
    check: string,
    paths: seq<string>,
    rendering: string,
    exitMasking: bool)

  datatype Kind = CriterionId | Check | ArtifactPaths | NoIdentity

  datatype IdentityKey = IdentityKey(kind: Kind, value: string)

  const UNVERSIONED := "unversioned"

  /** Which renderer wrote the check text; an absent stamp has its own name. */
  function CheckRendering(receipt: Receipt): string {
    if receipt.rendering != "" then receipt.rendering else UNVERSIONED
  }

  datatype Identity = Identity(criterionId: string, check: string, paths: seq<string>, checkRendering: string) {
    function CheckSource(): string {
      if check != "" then Json.Encode([checkRendering, check]) else ""
    }

    function PathsSource(): string {
      if paths != [] then Json.Encode(paths) else ""
    }

    /** The first component that is not empty, in precedence order. */
    function Key(): IdentityKey {
      if criterionId != "" then IdentityKey(CriterionId, criterionId)
      else if CheckSource() != "" then IdentityKey(Check, CheckSource())
      else if PathsSource() != "" then IdentityKey(ArtifactPaths, PathsSource())
      else IdentityKey(NoIdentity, "")
    }

    /** The key that masked passes are compared by: the criterion or nothing. */
    function CriterionKey(): IdentityKey {
      if criterionId != "" then IdentityKey(CriterionId, criterionId)
      else IdentityKey(NoIdentity, "")
    }
  }

  function CanonicalIdentity(receipt: Receipt): Identity {
    Identity(receipt.criterionId, receipt.check, CanonicalPathSet(receipt.paths), CheckRendering(receipt))
  }

  function ReconciliationKey(receipt: Receipt, masked: bool): IdentityKey {
    var identity := CanonicalIdentity(receipt);
    if masked then identity.CriterionKey() else identity.Key()
  }

  // ---- what the key stands for ----

  /** The verification a receipt names, said without any serialization. */
  datatype Verification =
    | ByCriterion(id: string)
    | ByCommand(rendering: string, check: string)
    | ByPaths(names: set<string>)
    | Unnamed

  function Named(receipt: Receipt): Verification {
    if receipt.criterionId != "" then ByCriterion(receipt.criterionId)
    else if receipt.check != "" then ByCommand(CheckRendering(receipt), receipt.check)
    else if PathNames(receipt.paths) != {} then ByPaths(PathNames(receipt.paths))
    else Unnamed
  }

  lemma EncodeIsNotEmpty(items: seq<string>)
    ensures Json.Encode(items) != ""
  {
  }

  /** Two receipts share a key exactly when they name the same verification: never across
      kinds, whatever quotes or newlines their texts hold, in whatever order and however
      often their paths are listed. */
  lemma KeyIdentifiesVerification(one: Receipt, other: Receipt)
    ensures ReconciliationKey(one, false) == ReconciliationKey(other, false) <==> Named(one) == Named(other)
    ensures ReconciliationKey(one, false).kind == NoIdentity <==> Named(one) == Unnamed
  {
    var a, b := CanonicalIdentity(one), CanonicalIdentity(other);
    EncodeIsNotEmpty([a.checkRendering, a.check]);
    EncodeIsNotEmpty([b.checkRendering, b.check]);
    EncodeIsNotEmpty(a.paths);
    EncodeIsNotEmpty(b.paths);
    Json.EncodeIsInjective([a.checkRendering, a.check], [b.checkRendering, b.check]);
    assert [a.checkRendering, a.check] == [b.checkRendering, b.check] ==>
        [a.checkRendering, a.check][0] == [b.checkRendering, b.check][0] &&
        [a.checkRendering, a.check][1] == [b.checkRendering, b.check][1];
    Json.EncodeIsInjective(a.paths, b.paths);
    CanonicalPathSetIsCanonical(one.paths, other.paths);
    CanonicalPathSetIsCanonical(one.paths, []);
    CanonicalPathSetIsCanonical(other.paths, []);
  }

  /** The criterion decides alone when there is one, then the check with its renderer, then the
      paths; texts of different renderers are different checks, and an absent stamp is the
      renderer "unversioned". */
  lemma PrecedenceOfIdentity(one: Receipt, other: Receipt)
    ensures one.criterionId != "" ==>
      (ReconciliationKey(one, false) == ReconciliationKey(other, false) <==> one.criterionId == other.criterionId)
    ensures one.criterionId == "" && other.criterionId == "" && one.check != "" ==>
      (ReconciliationKey(one, false) == ReconciliationKey(other, false) <==>
         one.check == other.check && StampOf(one) == StampOf(other))
    ensures one.criterionId == other.criterionId == "" && one.check == other.check == "" ==>
      (ReconciliationKey(one, false) == ReconciliationKey(other, false) <==>
         PathNames(one.paths) == PathNames(other.paths))
  {
    KeyIdentifiesVerification(one, other);
  }

  function StampOf(receipt: Receipt): string {
    if receipt.rendering == "" then "unversioned" else receipt.rendering
  }
}
