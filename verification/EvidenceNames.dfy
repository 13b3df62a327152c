/** The fixed words of the qualification evidence file: its keys in order, its
    literal values, and the characters a line may hold. */
module EvidenceNames {

  predicate Ordinary(ch: char) {
    0 < ch as int <= 127 && ch != '\r' && ch != '\n'
  }

  ghost predicate Plain(text: string) {
    forall ch :: ch in text ==> Ordinary(ch)
  }

  ghost predicate AllPlain(texts: seq<string>) {
    forall i :: 0 <= i < |texts| ==> Plain(texts[i])
  }

  const KEYS: seq<string> := [
    "schema",
    "mode",
    "manifest_sha256",
    "candidate_sha256",
    "candidate_file_size",
    "candidate_machine",
    "candidate_coff_timestamp",
    "candidate_size_of_image",
    "candidate_file_version_quad",
    "candidate_product_version_quad",
    "candidate_export_1",
    "candidate_export_2",
    "candidate_signature_policy",
    "winverifytrust_status",
    "abi_layout",
    "child_exit_status",
    "control_digest_sha256"]

  const MODE := "qualify-system32"
  const MACHINE := "AMD64"
  const EXPORT_1 := "X3DAudioCalculate@1"
  const EXPORT_2 := "X3DAudioInitialize@2"
  const POLICY := "embedded-winverifytrust-v2-cache-only"
  const TRUST := "ERROR_SUCCESS"
  const LAYOUT := "pass"
  const EXIT := "0x00000000"

  lemma PlainByIndex(text: string)
    requires forall i :: 0 <= i < |text| ==> Ordinary(text[i])
    ensures Plain(text)
  {
  }

  lemma ConstantsArePlain()
    ensures Plain("1") && Plain(MODE) && Plain(MACHINE) && Plain(EXPORT_1) && Plain(EXPORT_2)
  {
    hide Plain;
    PlainByIndex("1");
    PlainByIndex(MODE);
    PlainByIndex(MACHINE);
    PlainByIndex(EXPORT_1);
    PlainByIndex(EXPORT_2);
  }

  lemma OutcomesArePlain()
    ensures Plain(TRUST) && Plain(LAYOUT) && Plain(EXIT)
  {
    hide Plain;
    PlainByIndex(TRUST);
    PlainByIndex(LAYOUT);
    PlainByIndex(EXIT);
  }

  lemma PolicyIsPlain()
    ensures Plain(POLICY)
  {
    hide Plain;
    PlainByIndex(POLICY);
  }

  lemma FirstKeysArePlain()
    ensures Plain(KEYS[0]) && Plain(KEYS[1]) && Plain(KEYS[2])
  {
    hide Plain;
    PlainByIndex(KEYS[0]);
    PlainByIndex(KEYS[1]);
    PlainByIndex(KEYS[2]);
  }

  lemma FileKeysArePlain()
    ensures Plain(KEYS[3]) && Plain(KEYS[4])
  {
    hide Plain;
    PlainByIndex(KEYS[3]);
    PlainByIndex(KEYS[4]);
  }

  lemma ImageKeysArePlain()
    ensures Plain(KEYS[5]) && Plain(KEYS[6]) && Plain(KEYS[7])
  {
    hide Plain;
    PlainByIndex(KEYS[5]);
    PlainByIndex(KEYS[6]);
    PlainByIndex(KEYS[7]);
  }

  lemma VersionKeyIsPlain()
    ensures Plain(KEYS[8])
  {
    hide Plain;
    PlainByIndex(KEYS[8]);
  }

  lemma ProductKeyIsPlain()
    ensures Plain(KEYS[9])
  {
    hide Plain;
    PlainByIndex(KEYS[9]);
  }

  lemma ExportKeysArePlain()
    ensures Plain(KEYS[10]) && Plain(KEYS[11]) && Plain(KEYS[12])
  {
    hide Plain;
    PlainByIndex(KEYS[10]);
    PlainByIndex(KEYS[11]);
    PlainByIndex(KEYS[12]);
  }

  lemma LastKeysArePlain()
    ensures Plain(KEYS[15]) && Plain(KEYS[16])
  {
    hide Plain;
    PlainByIndex(KEYS[15]);
    PlainByIndex(KEYS[16]);
  }

  lemma TrustKeysArePlain()
    ensures Plain(KEYS[13]) && Plain(KEYS[14])
  {
    hide Plain;
    PlainByIndex(KEYS[13]);
    PlainByIndex(KEYS[14]);
  }

  lemma KeysArePlain()
    ensures AllPlain(KEYS)
    ensures forall i :: 0 <= i < |KEYS| ==> 0 < |KEYS[i]| <= 100
  {
    hide Plain;
    FirstKeysArePlain();
    FileKeysArePlain();
    ImageKeysArePlain();
    VersionKeyIsPlain();
    ProductKeyIsPlain();
    ExportKeysArePlain();
    TrustKeysArePlain();
    LastKeysArePlain();
  }

  lemma EqualsIsPlain()
    ensures Plain("=")
  {
    hide Plain;
    PlainByIndex("=");
  }
}
