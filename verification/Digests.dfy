/**
 SHA-256 digests. A digest is the payload it was taken of, tagged with the domain prefix
 the contracts put in front: equal digests have equal payloads, and a digest is always
 lower-case hexadecimal text, so trimming and lower-casing it changes nothing.
*/
module Digests {

  datatype Digest =
    | NoDigest
    | ClaimDigest(subject: string, predicate_: string, objectValue: string,
                  qualifiers: string, temporal: string, mutability: string)
    | FactDigest(claim: Digest, policy: Digest, schema: string, template: Digest)
    | SpecDigest(specClaim: Digest, specSchema: string, ttlSeconds: nat,
                 description: string, seeds: seq<string>)
    | PolicyDigest(policyId: string, version: nat, name: string,
                   minPrimary: nat, minIndependent: nat,
                   allowed: string, disallowed: string,
                   crossCheck: bool, rules: string)
    | TemplateDigest(templateId: string, templateVersion: nat, templateName: string,
                     factType: string, requiredFields: string, instructions: string,
                     defaultPolicyId: string, defaultPolicyVersion: nat)
    | CallbackDigest(request: nat, resolution: nat, consumer: nat)
    | ManifestDigest(manifest: string)
}
